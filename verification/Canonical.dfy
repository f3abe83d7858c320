/** Canonical JSON: the text an action's signature covers. */
module Canonical {
  import opened Wrappers
  import opened StableSort
  import opened CanonicalText

  /** A finite double, as the decimal its shortest round-trip notation denotes; minus zero is the one
      with a sign and no digits. */
  type Number = d: Decimal | IsNormal(d) witness ZERO_VALUE

  /** A JavaScript value; `Other` stands for functions and symbols, `NonFinite` for NaN and the
      infinities. Members come in creation order. */
  datatype Value =
    | Undefined
    | Null
    | Bool(b: bool)
    | NonFinite
    | Num(n: Number)
    | BigInt(i: int)
    | Str(s: Text)
    | Arr(items: seq<Value>)
    | Obj(members: seq<Member>)
    | Other

  datatype Member = Member(key: Text, value: Value)

  // ---------------------------------------------------------------- the printer

  const NULL_TEXT: Text := [0x6E, 0x75, 0x6C, 0x6C]
  const TRUE_TEXT: Text := [0x74, 0x72, 0x75, 0x65]
  const FALSE_TEXT: Text := [0x66, 0x61, 0x6C, 0x73, 0x65]

  function NumberText(n: Number): Text {
    if n.digits == [] then [ZERO] else Sign(n.negative) + Layout(n.digits, n.point)
  }

  function BigText(i: int): Text {
    Sign(i < 0) + Spell(Dec(Size(i)))
  }

  function Join(parts: seq<Text>): Text {
    if parts == [] then [] else if |parts| == 1 then parts[0] else parts[0] + [COMMA] + Join(parts[1..])
  }

  /** UTF-16 code unit order, the default order of `Array.prototype.sort`. */
  predicate TextLe(a: Text, b: Text) {
    a == [] || (b != [] && (a[0] < b[0] || (a[0] == b[0] && TextLe(a[1..], b[1..]))))
  }

  /** A member that is already printed. */
  datatype Printed = Printed(key: Text, text: Text)

  predicate PrintedLe(a: Printed, b: Printed) { TextLe(a.key, b.key) }

  function MemberText(member: Printed): Text {
    Quoted(member.key) + [COLON] + member.text
  }

  function MemberTexts(members: seq<Printed>): seq<Text> {
    seq(|members|, i requires 0 <= i < |members| => MemberText(members[i]))
  }

  /** None where the source throws. */
  function Canonicalize(v: Value): Option<Text> {
    match v
    case Null => Some(NULL_TEXT)
    case Bool(b) => Some(if b then TRUE_TEXT else FALSE_TEXT)
    case NonFinite => None
    case Num(n) => Some(NumberText(n))
    case Str(s) => Some(Quoted(s))
    case BigInt(i) => Some(BigText(i))
    case Arr(items) =>
      var parts := CanonicalizeItems(items);
      if parts.None? then None else Some([OPEN_BRACKET] + Join(parts.value) + [CLOSE_BRACKET])
    case Obj(members) =>
      var parts := CanonicalizeMembers(members);
      if parts.None? then None
      else Some([OPEN_BRACE] + Join(MemberTexts(Sort(PrintedLe, parts.value))) + [CLOSE_BRACE])
    case Undefined => None
    case Other => None
  }

  function CanonicalizeItems(items: seq<Value>): Option<seq<Text>> {
    if items == [] then Some([])
    else
      var first, rest := Canonicalize(items[0]), CanonicalizeItems(items[1..]);
      if first.None? || rest.None? then None else Some([first.value] + rest.value)
  }

  /** The members that are printed, still in creation order: undefined ones are dropped. */
  function CanonicalizeMembers(members: seq<Member>): Option<seq<Printed>> {
    if members == [] then Some([])
    else if members[0].value.Undefined? then CanonicalizeMembers(members[1..])
    else
      var first, rest := Canonicalize(members[0].value), CanonicalizeMembers(members[1..]);
      if first.None? || rest.None? then None else Some([Printed(members[0].key, first.value)] + rest.value)
  }

  // ---------------------------------------------------------------- JSON values and the normal form

  datatype Json =
    | JNull
    | JBool(b: bool)
    | JNum(n: Numeral)
    | JStr(s: Text)
    | JArr(items: seq<Json>)
    | JObj(members: seq<JsonMember>)

  datatype JsonMember = JsonMember(key: Text, value: Json)

  predicate JsonLe(a: JsonMember, b: JsonMember) { TextLe(a.key, b.key) }

  /** The number without its sign if it is zero. */
  function NumberForm(n: Number): Numeral {
    Numeral(if n.digits == [] then ZERO_VALUE else n, false)
  }

  /** A bigint read as a number. */
  function BigForm(i: int): Numeral {
    Numeral(DecimalOf(i), |Dec(Size(i))| > 21)
  }

  /** Undefined members dropped, keys in UTF-16 order, bigints as numbers. */
  function NormalForm(v: Value): Option<Json> {
    match v
    case Null => Some(JNull)
    case Bool(b) => Some(JBool(b))
    case Num(n) => Some(JNum(NumberForm(n)))
    case BigInt(i) => Some(JNum(BigForm(i)))
    case Str(s) => Some(JStr(s))
    case Arr(items) =>
      var forms := NormalItems(items);
      if forms.None? then None else Some(JArr(forms.value))
    case Obj(members) =>
      var forms := NormalMembers(members);
      if forms.None? then None else Some(JObj(Sort(JsonLe, forms.value)))
    case _ => None
  }

  function NormalItems(items: seq<Value>): Option<seq<Json>> {
    if items == [] then Some([])
    else
      var first, rest := NormalForm(items[0]), NormalItems(items[1..]);
      if first.None? || rest.None? then None else Some([first.value] + rest.value)
  }

  function NormalMembers(members: seq<Member>): Option<seq<JsonMember>> {
    if members == [] then Some([])
    else if members[0].value.Undefined? then NormalMembers(members[1..])
    else
      var first, rest := NormalForm(members[0].value), NormalMembers(members[1..]);
      if first.None? || rest.None? then None else Some([JsonMember(members[0].key, first.value)] + rest.value)
  }

  /** A JSON value as text, in the order it is given. */
  function Render(j: Json): Text {
    match j
    case JNull => NULL_TEXT
    case JBool(b) => if b then TRUE_TEXT else FALSE_TEXT
    case JNum(n) => RenderNumeral(n)
    case JStr(s) => Quoted(s)
    case JArr(items) => [OPEN_BRACKET] + Join(RenderItems(items)) + [CLOSE_BRACKET]
    case JObj(members) => [OPEN_BRACE] + Join(MemberTexts(RenderMembers(members))) + [CLOSE_BRACE]
  }

  function RenderItems(items: seq<Json>): seq<Text> {
    if items == [] then [] else [Render(items[0])] + RenderItems(items[1..])
  }

  function RenderMembers(members: seq<JsonMember>): seq<Printed> {
    if members == [] then [] else [Printed(members[0].key, Render(members[0].value))] + RenderMembers(members[1..])
  }

  // ---------------------------------------------------------------- a parser

  predicate IsSpace(u: CodeUnit) { u == SPACE || u == TAB || u == LF || u == CR }

  function SkipSpace(t: Text): (r: Text)
    ensures |r| <= |t|
  {
    if t != [] && IsSpace(t[0]) then SkipSpace(t[1..]) else t
  }

  predicate Next(t: Text, u: CodeUnit) {
    t != [] && t[0] == u
  }

  /** Sections 2 and 3 of RFC 8259; arrays and objects (sections 4 and 5) below. */
  function ParseValue(t: Text): (r: Option<(Json, Text)>)
    ensures r.Some? ==> |r.value.1| < |t|
    decreases |t|, 0
  {
    var u := SkipSpace(t);
    if Next(u, QUOTE) then
      var s := ReadChars(u[1..]);
      if s.None? then None else Some((JStr(s.value.0), s.value.1))
    else if Next(u, OPEN_BRACKET) then
      if Next(SkipSpace(u[1..]), CLOSE_BRACKET) then Some((JArr([]), SkipSpace(u[1..])[1..]))
      else
        var items := ParseItems(u[1..]);
        if items.None? then None else Some((JArr(items.value.0), items.value.1))
    else if Next(u, OPEN_BRACE) then
      if Next(SkipSpace(u[1..]), CLOSE_BRACE) then Some((JObj([]), SkipSpace(u[1..])[1..]))
      else
        var members := ParseMembers(u[1..]);
        if members.None? then None else Some((JObj(members.value.0), members.value.1))
    else if NULL_TEXT <= u then Some((JNull, u[4..]))
    else if TRUE_TEXT <= u then Some((JBool(true), u[4..]))
    else if FALSE_TEXT <= u then Some((JBool(false), u[5..]))
    else
      var n := ReadNumber(u);
      if n.None? then None else Some((JNum(n.value.0), n.value.1))
  }

  /** `value *( value-separator value ) end-array` */
  function ParseItems(t: Text): (r: Option<(seq<Json>, Text)>)
    ensures r.Some? ==> |r.value.1| < |t|
    decreases |t|, 1
  {
    var first := ParseValue(t);
    if first.None? then None
    else
      var u := SkipSpace(first.value.1);
      if Next(u, CLOSE_BRACKET) then Some(([first.value.0], u[1..]))
      else if !Next(u, COMMA) then None
      else
        var rest := ParseItems(u[1..]);
        if rest.None? then None else Some(([first.value.0] + rest.value.0, rest.value.1))
  }

  /** `string name-separator value` */
  function ParseMember(t: Text): (r: Option<(JsonMember, Text)>)
    ensures r.Some? ==> |r.value.1| < |t|
    decreases |t|, 1
  {
    var u := SkipSpace(t);
    if !Next(u, QUOTE) then None
    else
      var key := ReadChars(u[1..]);
      if key.None? then None
      else
        var w := SkipSpace(key.value.1);
        if !Next(w, COLON) then None
        else
          var value := ParseValue(w[1..]);
          if value.None? then None else Some((JsonMember(key.value.0, value.value.0), value.value.1))
  }

  /** `member *( value-separator member ) end-object` */
  function ParseMembers(t: Text): (r: Option<(seq<JsonMember>, Text)>)
    ensures r.Some? ==> |r.value.1| < |t|
    decreases |t|, 2
  {
    var first := ParseMember(t);
    if first.None? then None
    else
      var u := SkipSpace(first.value.1);
      if Next(u, CLOSE_BRACE) then Some(([first.value.0], u[1..]))
      else if !Next(u, COMMA) then None
      else
        var rest := ParseMembers(u[1..]);
        if rest.None? then None else Some(([first.value.0] + rest.value.0, rest.value.1))
  }

  function Parse(t: Text): Option<Json> {
    var r := ParseValue(t);
    if r.None? || SkipSpace(r.value.1) != [] then None else Some(r.value.0)
  }

  // ---------------------------------------------------------------- reading back

  ghost predicate Good(j: Json) {
    match j
    case JNum(n) => IsNumeral(n)
    case JArr(items) => forall i :: 0 <= i < |items| ==> Good(items[i])
    case JObj(members) => forall i :: 0 <= i < |members| ==> Good(members[i].value)
    case _ => true
  }

  lemma RenderStarts(j: Json)
    requires Good(j)
    ensures Render(j) != [] && !IsSpace(Render(j)[0])
    ensures Render(j)[0] != CLOSE_BRACKET && Render(j)[0] != CLOSE_BRACE
  {
  }

  lemma NoSkip(t: Text)
    requires t == [] || !IsSpace(t[0])
    ensures SkipSpace(t) == t
  {
  }

  lemma RenderItemsAt(items: seq<Json>)
    ensures |RenderItems(items)| == |items|
    ensures forall i :: 0 <= i < |items| ==> RenderItems(items)[i] == Render(items[i])
  {
  }

  lemma RenderMembersAt(members: seq<JsonMember>)
    ensures |RenderMembers(members)| == |members|
    ensures forall i :: 0 <= i < |members| ==>
            RenderMembers(members)[i] == Printed(members[i].key, Render(members[i].value))
  {
  }

  lemma ParseWord(j: Json, rest: Text)
    requires j.JNull? || j.JBool?
    ensures ParseValue(Render(j) + rest) == Some((j, rest))
  {
  }

  lemma NumbersAreNoWords(t: Text)
    requires t != [] && (t[0] == MINUS || IsDigit(t[0]))
    ensures SkipSpace(t) == t && !(NULL_TEXT <= t) && !(TRUE_TEXT <= t) && !(FALSE_TEXT <= t)
    ensures !Next(t, QUOTE) && !Next(t, OPEN_BRACKET) && !Next(t, OPEN_BRACE)
  {
  }

  lemma ParseNumber(n: Numeral, rest: Text)
    requires IsNumeral(n) && Delimits(rest)
    ensures ParseValue(RenderNumeral(n) + rest) == Some((JNum(n), rest))
  {
    var text := RenderNumeral(n);
    ReadRendered(n, rest);
    assert (text + rest)[0] == text[0];
    NumbersAreNoWords(text + rest);
  }

  lemma ParseString(s: Text, rest: Text)
    ensures ParseValue(Quoted(s) + rest) == Some((JStr(s), rest))
  {
    var t := Quoted(s) + rest;
    NoSkip(t);
    assert t[1..] == Escape(s) + ([QUOTE] + rest);
    ReadEscaped(s, rest);
  }

  lemma ParseScalar(j: Json, rest: Text)
    requires Good(j) && Delimits(rest) && !j.JArr? && !j.JObj?
    ensures ParseValue(Render(j) + rest) == Some((j, rest))
  {
    match j
    case JNum(n) => ParseNumber(n, rest);
    case JStr(s) => ParseString(s, rest);
    case _ => ParseWord(j, rest);
  }

  lemma ParseArray(items: seq<Json>, inner: Text, rest: Text)
    requires if items == [] then inner == [CLOSE_BRACKET] + rest
             else inner != [] && !IsSpace(inner[0]) && inner[0] != CLOSE_BRACKET &&
                  ParseItems(inner) == Some((items, rest))
    ensures ParseValue([OPEN_BRACKET] + inner) == Some((JArr(items), rest))
  {
  }

  lemma ParseObject(members: seq<JsonMember>, inner: Text, rest: Text)
    requires if members == [] then inner == [CLOSE_BRACE] + rest
             else inner != [] && !IsSpace(inner[0]) && inner[0] != CLOSE_BRACE &&
                  ParseMembers(inner) == Some((members, rest))
    ensures ParseValue([OPEN_BRACE] + inner) == Some((JObj(members), rest))
  {
  }

  lemma {:induction false} ParseRenderedArray(items: seq<Json>, rest: Text)
    requires forall i :: 0 <= i < |items| ==> Good(items[i])
    ensures ParseValue(Render(JArr(items)) + rest) == Some((JArr(items), rest))
    decreases items, 2
  {
    var joined, end := Join(RenderItems(items)), [CLOSE_BRACKET] + rest;
    assert Render(JArr(items)) + rest == [OPEN_BRACKET] + (joined + end);
    if items == [] {
      assert joined + end == end;
    } else {
      ParseRenderedItems(items, rest);
      assert (joined + end)[0] == joined[0];
    }
    ParseArray(items, joined + end, rest);
  }

  lemma {:induction false} ParseRenderedObject(members: seq<JsonMember>, rest: Text)
    requires forall i :: 0 <= i < |members| ==> Good(members[i].value)
    ensures ParseValue(Render(JObj(members)) + rest) == Some((JObj(members), rest))
    decreases members, 3
  {
    var joined, end := Join(MemberTexts(RenderMembers(members))), [CLOSE_BRACE] + rest;
    assert Render(JObj(members)) + rest == [OPEN_BRACE] + (joined + end);
    if members == [] {
      assert joined + end == end;
    } else {
      ParseRenderedMembers(members, rest);
      assert (joined + end)[0] == joined[0];
    }
    ParseObject(members, joined + end, rest);
  }

  /** Whatever is rendered reads back, inside any context that ends a value. */
  lemma {:induction false} ParseRendered(j: Json, rest: Text)
    requires Good(j) && Delimits(rest)
    ensures ParseValue(Render(j) + rest) == Some((j, rest))
    decreases j, 0
  {
    match j
    case JArr(items) => ParseRenderedArray(items, rest);
    case JObj(members) => ParseRenderedObject(members, rest);
    case _ => ParseScalar(j, rest);
  }

  /** One element and what follows it. */
  lemma ItemsStep(first: Json, rest: seq<Json>, after: Text, t: Text, end: Text)
    requires ParseValue(t) == Some((first, after))
    requires rest == [] ==> after == [CLOSE_BRACKET] + end
    requires rest != [] ==> after != [] && after[0] == COMMA && ParseItems(after[1..]) == Some((rest, end))
    ensures ParseItems(t) == Some(([first] + rest, end))
  {
    NoSkip(after);
    assert rest == [] ==> after[1..] == end && [first] + rest == [first];
  }

  /** What stands behind the first part of a joined list. */
  function AfterFirst(parts: seq<Text>, end: Text): Text
    requires parts != []
  {
    if |parts| == 1 then end else [COMMA] + (Join(parts[1..]) + end)
  }

  lemma JoinStep(parts: seq<Text>, end: Text)
    requires parts != []
    ensures Join(parts) + end == parts[0] + AfterFirst(parts, end)
    ensures |parts| > 1 ==> AfterFirst(parts, end)[1..] == Join(parts[1..]) + end
  {
    if |parts| > 1 {
      var more := Join(parts[1..]);
      Regroup(parts[0], [COMMA], more);
      Regroup(parts[0], [COMMA] + more, end);
      Regroup([COMMA], more, end);
    }
  }

  lemma JoinStarts(parts: seq<Text>)
    requires parts != [] && parts[0] != []
    ensures Join(parts) != [] && Join(parts)[0] == parts[0][0]
  {
  }

  lemma {:induction false} ParseRenderedItems(items: seq<Json>, rest: Text)
    requires items != [] && forall i :: 0 <= i < |items| ==> Good(items[i])
    ensures ParseItems(Join(RenderItems(items)) + ([CLOSE_BRACKET] + rest)) == Some((items, rest))
    ensures Join(RenderItems(items)) != []
    ensures !IsSpace(Join(RenderItems(items))[0]) && Join(RenderItems(items))[0] != CLOSE_BRACKET
    decreases items, 1
  {
    var end := [CLOSE_BRACKET] + rest;
    var texts, tail := RenderItems(items), items[1..];
    RenderItemsAt(items);
    RenderStarts(items[0]);
    assert texts[1..] == RenderItems(tail);
    JoinStep(texts, end);
    JoinStarts(texts);
    var after := AfterFirst(texts, end);
    ParseRendered(items[0], after);
    if tail != [] { ParseRenderedItems(tail, rest); }
    ItemsStep(items[0], tail, after, Join(texts) + end, rest);
    assert items == [items[0]] + tail;
  }

  lemma MemberStep(key: Text, value: Json, valueText: Text, rest: Text)
    requires ParseValue(valueText + rest) == Some((value, rest))
    ensures ParseMember(MemberText(Printed(key, valueText)) + rest) == Some((JsonMember(key, value), rest))
  {
    var t := MemberText(Printed(key, valueText)) + rest;
    var afterKey := [COLON] + (valueText + rest);
    NoSkip(t);
    NoSkip(afterKey);
    MemberSplits(key, valueText, rest);
    ReadEscaped(key, afterKey);
    assert afterKey[1..] == valueText + rest;
  }

  lemma MemberSplits(key: Text, valueText: Text, rest: Text)
    ensures var t := MemberText(Printed(key, valueText)) + rest;
            t != [] && t[0] == QUOTE && t[1..] == Escape(key) + ([QUOTE] + ([COLON] + (valueText + rest)))
  {
  }

  lemma MembersStep(first: JsonMember, rest: seq<JsonMember>, after: Text, t: Text, end: Text)
    requires ParseMember(t) == Some((first, after))
    requires rest == [] ==> after == [CLOSE_BRACE] + end
    requires rest != [] ==> after != [] && after[0] == COMMA && ParseMembers(after[1..]) == Some((rest, end))
    ensures ParseMembers(t) == Some(([first] + rest, end))
  {
    NoSkip(after);
    assert rest == [] ==> after[1..] == end && [first] + rest == [first];
  }

  lemma MemberTextsAt(members: seq<JsonMember>)
    requires members != []
    ensures var texts := MemberTexts(RenderMembers(members));
            && texts != [] && texts[0] == MemberText(Printed(members[0].key, Render(members[0].value)))
            && texts[0] != [] && texts[0][0] == QUOTE
            && texts[1..] == MemberTexts(RenderMembers(members[1..]))
            && |texts| == |members|
  {
  }

  lemma {:induction false} ParseRenderedMembers(members: seq<JsonMember>, rest: Text)
    requires members != [] && forall i :: 0 <= i < |members| ==> Good(members[i].value)
    ensures ParseMembers(Join(MemberTexts(RenderMembers(members))) + ([CLOSE_BRACE] + rest)) == Some((members, rest))
    ensures Join(MemberTexts(RenderMembers(members))) != []
    ensures Join(MemberTexts(RenderMembers(members)))[0] == QUOTE
    decreases members, 2
  {
    var end := [CLOSE_BRACE] + rest;
    var text, tail := Join(MemberTexts(RenderMembers(members))), members[1..];
    var after := ParseFirstMember(members, end);
    if tail != [] { ParseRenderedMembers(tail, rest); }
    MembersStep(members[0], tail, after, text + end, rest);
    assert members == [members[0]] + tail;
  }

  lemma {:induction false} ParseFirstMember(members: seq<JsonMember>, end: Text) returns (after: Text)
    requires members != [] && Good(members[0].value) && end != [] && end[0] == CLOSE_BRACE
    ensures var text := Join(MemberTexts(RenderMembers(members)));
            && text != [] && text[0] == QUOTE && ParseMember(text + end) == Some((members[0], after))
    ensures if |members| == 1 then after == end
            else after != [] && after[0] == COMMA
                 && after[1..] == Join(MemberTexts(RenderMembers(members[1..]))) + end
    decreases members, 1
  {
    after := MembersSplit(members, end);
    ParseRendered(members[0].value, after);
    MemberStep(members[0].key, members[0].value, Render(members[0].value), after);
  }

  lemma MembersSplit(members: seq<JsonMember>, end: Text) returns (after: Text)
    requires members != [] && end != [] && end[0] == CLOSE_BRACE
    ensures var text := Join(MemberTexts(RenderMembers(members)));
            && text != [] && text[0] == QUOTE
            && text + end == MemberText(Printed(members[0].key, Render(members[0].value))) + after
    ensures Delimits(after)
    ensures if |members| == 1 then after == end
            else after != [] && after[0] == COMMA
                 && after[1..] == Join(MemberTexts(RenderMembers(members[1..]))) + end
  {
    var texts := MemberTexts(RenderMembers(members));
    MemberTextsAt(members);
    JoinStep(texts, end);
    JoinStarts(texts);
    after := AfterFirst(texts, end);
  }
}
