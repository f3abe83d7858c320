/** The deterministic hygiene every discovery turn passes: which questions stay open, whether the
    builder may plan, and what is said. */
module DiscoveryNormalize {
  import opened BuilderLedger

  datatype Question = Question(key: string, text: string, blocking: bool)

  /** The score is in hundredths. */
  datatype Readiness = Readiness(score: int, canPlan: bool, blocking: seq<string>)

  datatype Move = Continue | Ready | Plan

  /** What the model says about a turn; `rest` is its usage and origin. */
  datatype Outcome = Outcome(reply: string, operations: seq<Operation>, unresolved: seq<Question>,
                             assumptions: seq<string>,
                             readiness: Readiness, move: Move, summary: string, rest: string)

  /** Everything that reads text: trimming, lower case, the regular expressions and the similarity test. */
  datatype Reader = Reader(
    trim: string -> string,
    lower: string -> string,
    negates: string -> bool,
    affirms: string -> bool,
    offersDesign: string -> bool,
    similar: (string, string) -> bool,
    hintsObjective: Fact -> bool,
    hintsInput: Fact -> bool,
    hintsOutput: Fact -> bool,
    hintsTrigger: Fact -> bool,
    hintsMail: Fact -> bool,
    asksForSource: string -> bool,
    notesTrigger: string -> bool)

  /** A missing last reply is the empty one: both count as none everywhere. */
  datatype Input = Input(outcome: Outcome, factsAfterOps: seq<Fact>, priorUnresolved: seq<Question>,
                         priorAssumptions: seq<string>, currentMessage: string, lastReply: string, turn: int)

  const READY_OFFER := "I have enough to design this. Say the word and I\U{2019}ll put the plan together."
  const DESIGNING := "Designing that now."
  const NO_PROBLEM := "No problem \U{2014} say when you want me to design it."
  const UNDERSTOOD :=
    "Understood \U{2014} no special filters. What\U{2019}s the one remaining must-have for this agent?"
  const TRIGGER_DEFAULT := "Trigger defaults to new/incoming emails unless the user specified otherwise."

  function DeclinedNote(q: Question): string {
    "User declined further restriction for \"" + q.key + "\": default broadly / no special filter."
  }

  function Max(a: int, b: int): int { if a > b then a else b }

  predicate HasCategory(facts: seq<Fact>, category: string) {
    exists i :: 0 <= i < |facts| && facts[i].category == category
  }

  predicate HasHint(facts: seq<Fact>, hints: Fact -> bool) {
    exists i :: 0 <= i < |facts| && hints(facts[i])
  }

  // ---------------------------------------------------------------- readiness

  predicate KnowsObjective(t: Reader, facts: seq<Fact>) {
    HasCategory(facts, "objective") || HasHint(facts, t.hintsObjective)
  }

  predicate KnowsInput(t: Reader, facts: seq<Fact>) {
    HasCategory(facts, "input") || HasCategory(facts, "integration") || HasHint(facts, t.hintsInput)
  }

  predicate KnowsOutput(t: Reader, facts: seq<Fact>) {
    HasCategory(facts, "output") || HasCategory(facts, "workflow") || HasHint(facts, t.hintsOutput)
  }

  predicate KnowsTrigger(t: Reader, facts: seq<Fact>) {
    HasCategory(facts, "trigger") || HasHint(facts, t.hintsTrigger)
  }

  function BlockingKeys(unresolved: seq<Question>): seq<string> {
    if unresolved == [] then []
    else (if unresolved[0].blocking then [unresolved[0].key] else []) + BlockingKeys(unresolved[1..])
  }

  /** Planning needs an objective, an output, an input or a trigger, and nothing that blocks; the score is
      a weighted count. */
  function ReadinessOf(t: Reader, facts: seq<Fact>, unresolved: seq<Question>): (r: Readiness)
    ensures 0 <= r.score <= 100
    ensures r.canPlan ==> r.score >= 75
  {
    var o, i, p, g := KnowsObjective(t, facts), KnowsInput(t, facts), KnowsOutput(t, facts), KnowsTrigger(t, facts);
    Readiness((if o then 30 else 0) + (if i then 25 else 0) + (if p then 25 else 0)
              + (if g then 20 else if o && p then 10 else 0),
              o && p && (i || g) && BlockingKeys(unresolved) == [],
              BlockingKeys(unresolved))
  }

  method ComputeDeterministicReadiness(t: Reader, facts: seq<Fact>, unresolved: seq<Question>) returns (r: Readiness)
    ensures r == ReadinessOf(t, facts, unresolved)
  {
    var hasObjective := KnowsObjective(t, facts);
    var hasInput := KnowsInput(t, facts);
    var hasOutput := KnowsOutput(t, facts);
    var hasTrigger := KnowsTrigger(t, facts);
    var score := 0;
    if hasObjective { score := score + 30; }
    if hasInput { score := score + 25; }
    if hasOutput { score := score + 25; }
    if hasTrigger { score := score + 20; }
    else if hasObjective && hasOutput { score := score + 10; }
    var blocking := BlockingKeys(unresolved);
    var coreKnown := hasObjective && hasOutput && (hasInput || hasTrigger || score >= 70);
    var canPlan := coreKnown && |blocking| == 0 && score >= 70;
    r := Readiness(if score < 100 then score else 100, canPlan, blocking);
  }

  // ---------------------------------------------------------------- lists

  predicate HasKey(t: Reader, items: seq<Question>, key: string) {
    exists i :: 0 <= i < |items| && t.lower(items[i].key) == key
  }

  /** The first question of every key, letter case aside. */
  function FirstPerKey(t: Reader, items: seq<Question>): seq<Question> {
    if items == [] then []
    else
      var rest, last := FirstPerKey(t, items[..|items| - 1]), items[|items| - 1];
      if HasKey(t, items[..|items| - 1], t.lower(last.key)) then rest else rest + [last]
  }

  method DedupeUnresolved(t: Reader, items: seq<Question>) returns (out: seq<Question>)
    ensures out == FirstPerKey(t, items)
  {
    var seen: set<string> := {};
    out := [];
    var i := 0;
    while i < |items|
      invariant 0 <= i <= |items| && out == FirstPerKey(t, items[..i])
      invariant forall key :: key in seen <==> HasKey(t, items[..i], key)
    {
      var before, now := items[..i], items[..i + 1];
      assert now[..i] == before;
      var key := t.lower(items[i].key);
      forall k ensures HasKey(t, now, k) <==> HasKey(t, before, k) || k == key {
        assert now[i] == items[i] && forall j :: 0 <= j < i ==> now[j] == before[j];
      }
      if key !in seen {
        seen := seen + {key};
        out := out + [items[i]];
      }
      i := i + 1;
    }
    assert items[..i] == items;
  }

  /** The questions that satisfy `keep`, in order. */
  function Filter(items: seq<Question>, keep: Question -> bool): seq<Question> {
    if items == [] then [] else (if keep(items[0]) then [items[0]] else []) + Filter(items[1..], keep)
  }

  function First<T>(s: seq<T>, n: nat): seq<T> {
    if n < |s| then s[..n] else s
  }

  /** `[...new Set(items)]` */
  function Distinct(items: seq<string>): seq<string> {
    if items == [] then []
    else
      var rest, last := Distinct(items[..|items| - 1]), items[|items| - 1];
      if last in rest then rest else rest + [last]
  }

  function Trimmed(t: Reader, items: seq<string>): seq<string> {
    if items == [] then []
    else (if t.trim(items[0]) == "" then [] else [t.trim(items[0])]) + Trimmed(t, items[1..])
  }

  /** Adds what is not there yet. */
  function AddNotes(notes: seq<string>, prior: seq<Question>): seq<string> {
    if prior == [] then notes
    else
      var rest, note := AddNotes(notes, prior[..|prior| - 1]), DeclinedNote(prior[|prior| - 1]);
      if note in rest then rest else rest + [note]
  }

  // ---------------------------------------------------------------- what a turn means

  predicate IsOffer(t: Reader, text: string) {
    text != "" && t.offersDesign(text)
  }

  predicate Repeats(t: Reader, lastReply: string, text: string) {
    lastReply != "" && t.similar(lastReply, text)
  }

  predicate Offered(t: Reader, x: Input) {
    IsOffer(t, x.lastReply) || IsOffer(t, x.outcome.reply)
  }

  predicate Negates(t: Reader, x: Input) { t.negates(t.trim(x.currentMessage)) }

  predicate Affirms(t: Reader, x: Input) { t.affirms(t.trim(x.currentMessage)) }

  /** The message answers every open question with "no". */
  predicate Declines(t: Reader, x: Input) {
    Negates(t, x) && x.priorUnresolved != [] && !Offered(t, x)
  }

  predicate IsFactKey(t: Reader, facts: seq<Fact>, key: string) {
    exists i :: 0 <= i < |facts| && t.lower(facts[i].key) == key
  }

  /** A question that neither this message nor a known fact has answered. */
  predicate IsOpen(t: Reader, x: Input, q: Question) {
    var key := t.lower(q.key);
    && !(Declines(t, x) && HasKey(t, x.priorUnresolved, key))
    && !IsFactKey(t, x.factsAfterOps, key)
    && !(HasHint(x.factsAfterOps, t.hintsMail) && t.asksForSource(q.key))
  }

  function Open(t: Reader, x: Input): Question -> bool { (q: Question) => IsOpen(t, x, q) }

  function Undeclined(t: Reader, x: Input): Question -> bool {
    (q: Question) => !HasKey(t, x.priorUnresolved, t.lower(q.key))
  }

  function NotAFact(t: Reader, x: Input): Question -> bool {
    (q: Question) => !IsFactKey(t, x.factsAfterOps, t.lower(q.key))
  }

  function NotTheSource(t: Reader): Question -> bool { (q: Question) => !t.asksForSource(q.key) }

  function Blocks(): Question -> bool { (q: Question) => q.blocking }

  function NotJustAsked(t: Reader, x: Input): Question -> bool { (q: Question) => !Repeats(t, x.lastReply, q.text) }

  function OpenQuestions(t: Reader, x: Input): seq<Question> {
    Filter(FirstPerKey(t, x.outcome.unresolved), Open(t, x))
  }

  /** Once enough is known, optional questions are dropped and one blocking question is left. */
  function Narrowed(t: Reader, x: Input): seq<Question> {
    var open := OpenQuestions(t, x);
    var seed := ReadinessOf(t, x.factsAfterOps, open);
    if seed.canPlan || (seed.score >= 55 && x.turn >= 3) then First(Filter(open, Blocks()), 1) else open
  }

  function BaseAssumptions(t: Reader, x: Input): seq<string> {
    First(Distinct(Trimmed(t, x.outcome.assumptions + x.priorAssumptions)), 20)
  }

  predicate DefaultsTrigger(t: Reader, x: Input, notes: seq<string>) {
    && !HasCategory(x.factsAfterOps, "trigger") && HasHint(x.factsAfterOps, t.hintsMail)
    && !exists i :: 0 <= i < |notes| && t.notesTrigger(notes[i])
  }

  function AllAssumptions(t: Reader, x: Input): seq<string> {
    var notes := if Declines(t, x) then AddNotes(BaseAssumptions(t, x), x.priorUnresolved) else BaseAssumptions(t, x);
    if DefaultsTrigger(t, x, notes) then notes + [TRIGGER_DEFAULT] else notes
  }

  function JoinSpaces(parts: seq<string>): string {
    if parts == [] then "" else if |parts| == 1 then parts[0] else parts[0] + " " + JoinSpaces(parts[1..])
  }

  // ---------------------------------------------------------------- the decision

  /** How a turn ends: the user takes up an offered design, turns it down, enough is known, or not yet. */
  datatype Ending = Accepted | TurnedDown | Enough | NotYet

  function EndingOf(t: Reader, x: Input): Ending {
    var r := ReadinessOf(t, x.factsAfterOps, Narrowed(t, x));
    if Offered(t, x) && Affirms(t, x) && r.score >= 55 then Accepted
    else if Offered(t, x) && Negates(t, x) then TurnedDown
    else if r.canPlan || (x.turn >= 3 && r.score >= 55 && r.blocking == []) then Enough
    else NotYet
  }

  predicate IsRepetitive(t: Reader, x: Input) {
    var unresolved := Narrowed(t, x);
    || Repeats(t, x.lastReply, t.trim(x.outcome.reply))
    || exists i :: 0 <= i < |unresolved| && Repeats(t, x.lastReply, unresolved[i].text)
  }

  /** The model's own reply and move survive an ending in which enough is known only if it offers the
      design itself, in new words. */
  predicate KeepsModelMove(t: Reader, x: Input) {
    x.outcome.move != Continue && !IsRepetitive(t, x) && IsOffer(t, t.trim(x.outcome.reply))
  }

  function ReadinessAt(ready: Readiness, ending: Ending): Readiness {
    match ending
    case Accepted => Readiness(Max(ready.score, 90), true, ready.blocking)
    case TurnedDown => Readiness(Max(ready.score, 85), true, ready.blocking)
    case Enough => Readiness(Max(ready.score, 85), true, ready.blocking)
    case NotYet => ready
  }

  /** At most one question, and none the assistant has just asked. */
  function NextQuestion(t: Reader, x: Input): seq<Question> {
    First(Filter(Narrowed(t, x), NotJustAsked(t, x)), 1)
  }

  function MoveAt(t: Reader, x: Input, ending: Ending): Move {
    match ending
    case Accepted => if x.turn <= 1 then Ready else Plan
    case TurnedDown => Ready
    case Enough => if x.turn > 1 && x.outcome.move.Plan? && KeepsModelMove(t, x) then Plan else Ready
    case NotYet => Continue
  }

  function ReplyAt(t: Reader, x: Input, ending: Ending): string {
    var own := t.trim(x.outcome.reply);
    match ending
    case Accepted => if own != "" then own else DESIGNING
    case TurnedDown => NO_PROBLEM
    case Enough => if KeepsModelMove(t, x) then own else READY_OFFER
    case NotYet => if IsRepetitive(t, x) && Negates(t, x) then UNDERSTOOD else own
  }

  /** The whole result, case by case. */
  function Normalized(t: Reader, x: Input): Outcome {
    var ending, notes := EndingOf(t, x), AllAssumptions(t, x);
    Outcome(ReplyAt(t, x, ending),
            x.outcome.operations,
            if ending.NotYet? then NextQuestion(t, x) else [],
            First(notes, 20),
            ReadinessAt(ReadinessOf(t, x.factsAfterOps, Narrowed(t, x)), ending),
            MoveAt(t, x, ending),
            if x.outcome.summary != "" then x.outcome.summary else JoinSpaces(First(notes, 3)),
            x.outcome.rest)
  }

  // ---------------------------------------------------------------- the method

  lemma {:induction false} FilterKeepsAll(items: seq<Question>, p: Question -> bool)
    requires forall i :: 0 <= i < |items| ==> p(items[i])
    ensures Filter(items, p) == items
  {
    if items != [] { FilterKeepsAll(items[1..], p); }
  }

  function If(applies: bool, items: seq<Question>, p: Question -> bool): seq<Question> {
    if applies then Filter(items, p) else items
  }

  /** Three filters, one after the other, leave the open questions. */
  lemma {:induction false} OpenInThreeSteps(t: Reader, x: Input, items: seq<Question>)
    ensures If(HasHint(x.factsAfterOps, t.hintsMail),
               Filter(If(Declines(t, x), items, Undeclined(t, x)), NotAFact(t, x)),
               NotTheSource(t))
            == Filter(items, Open(t, x))
  {
    var declines, mail := Declines(t, x), HasHint(x.factsAfterOps, t.hintsMail);
    var p := (q: Question) => declines ==> Undeclined(t, x)(q);
    var r := (q: Question) => mail ==> NotTheSource(t)(q);
    IfIsFilter(declines, items, Undeclined(t, x), p);
    IfIsFilter(mail, Filter(Filter(items, p), NotAFact(t, x)), NotTheSource(t), r);
    ThreeFilters(items, p, NotAFact(t, x), r, Open(t, x));
  }

  lemma {:induction false} IfIsFilter(applies: bool, items: seq<Question>, p: Question -> bool, q: Question -> bool)
    requires forall i :: 0 <= i < |items| ==> (q(items[i]) <==> (applies ==> p(items[i])))
    ensures If(applies, items, p) == Filter(items, q)
  {
    if items != [] { IfIsFilter(applies, items[1..], p, q); }
  }

  lemma {:induction false} ThreeFilters(items: seq<Question>, p: Question -> bool, q: Question -> bool,
                                        r: Question -> bool, all: Question -> bool)
    requires forall i :: 0 <= i < |items| ==> (all(items[i]) <==> p(items[i]) && q(items[i]) && r(items[i]))
    ensures Filter(Filter(Filter(items, p), q), r) == Filter(items, all)
  {
    if items != [] {
      ThreeFilters(items[1..], p, q, r, all);
      FilterFirst(items, p);
      if p(items[0]) {
        FilterFirst(Filter(items, p), q);
        if q(items[0]) { FilterFirst(Filter(Filter(items, p), q), r); }
      }
    }
  }

  lemma FilterFirst(items: seq<Question>, p: Question -> bool)
    requires items != []
    ensures p(items[0]) ==> Filter(items, p) == [items[0]] + Filter(items[1..], p)
    ensures p(items[0]) ==> Filter(items, p)[1..] == Filter(items[1..], p)
    ensures !p(items[0]) ==> Filter(items, p) == Filter(items[1..], p)
  {
  }

  lemma AddNotesSnoc(notes: seq<string>, prior: seq<Question>, i: nat)
    requires i < |prior|
    ensures var rest, note := AddNotes(notes, prior[..i]), DeclinedNote(prior[i]);
            AddNotes(notes, prior[..i + 1]) == if note in rest then rest else rest + [note]
  {
    assert prior[..i + 1][..i] == prior[..i];
  }

  /** Nothing the assistant just asked among the questions: dropping such questions changes nothing. */
  lemma NothingToDrop(t: Reader, x: Input)
    requires !IsRepetitive(t, x)
    ensures Filter(Narrowed(t, x), NotJustAsked(t, x)) == Narrowed(t, x)
  {
    FilterKeepsAll(Narrowed(t, x), NotJustAsked(t, x));
  }

  /** The notes, with the declined questions and the default trigger. */
  method CollectAssumptions(t: Reader, x: Input, negation: bool,
                            lastWasReadyOffer: bool) returns (assumptions: seq<string>)
    requires negation == Negates(t, x) && lastWasReadyOffer == Offered(t, x)
    ensures assumptions == AllAssumptions(t, x)
  {
    assumptions := First(Distinct(Trimmed(t, x.outcome.assumptions + x.priorAssumptions)), 20);
    if negation && |x.priorUnresolved| > 0 && !lastWasReadyOffer {
      var i := 0;
      while i < |x.priorUnresolved|
        invariant 0 <= i <= |x.priorUnresolved|
        invariant assumptions == AddNotes(BaseAssumptions(t, x), x.priorUnresolved[..i])
      {
        AddNotesSnoc(BaseAssumptions(t, x), x.priorUnresolved, i);
        var assumption := DeclinedNote(x.priorUnresolved[i]);
        if assumption !in assumptions { assumptions := assumptions + [assumption]; }
        i := i + 1;
      }
      assert x.priorUnresolved[..i] == x.priorUnresolved;
    }
    if !HasCategory(x.factsAfterOps, "trigger") && HasHint(x.factsAfterOps, t.hintsMail)
       && !exists i :: 0 <= i < |assumptions| && t.notesTrigger(assumptions[i])
    {
      assumptions := assumptions + [TRIGGER_DEFAULT];
    }
  }

  /** The questions that are left, and the readiness with them. */
  method NarrowQuestions(t: Reader, x: Input, negation: bool, lastWasReadyOffer: bool)
    returns (unresolved: seq<Question>, readiness: Readiness)
    requires negation == Negates(t, x) && lastWasReadyOffer == Offered(t, x)
    ensures unresolved == Narrowed(t, x) && readiness == ReadinessOf(t, x.factsAfterOps, unresolved)
  {
    unresolved := DedupeUnresolved(t, x.outcome.unresolved);
    OpenInThreeSteps(t, x, unresolved);
    if negation && |x.priorUnresolved| > 0 && !lastWasReadyOffer { unresolved := Filter(unresolved, Undeclined(t, x)); }
    unresolved := Filter(unresolved, NotAFact(t, x));
    if HasHint(x.factsAfterOps, t.hintsMail) { unresolved := Filter(unresolved, NotTheSource(t)); }
    assert unresolved == OpenQuestions(t, x);
    var readinessSeed := ComputeDeterministicReadiness(t, x.factsAfterOps, unresolved);
    if readinessSeed.canPlan || (readinessSeed.score >= 55 && x.turn >= 3) {
      unresolved := First(Filter(unresolved, Blocks()), 1);
    }
    readiness := ComputeDeterministicReadiness(t, x.factsAfterOps, unresolved);
  }

  /** What the turn comes to. */
  method Decide(t: Reader, x: Input, negation: bool, lastWasReadyOffer: bool, unresolved0: seq<Question>,
                readiness0: Readiness)
    returns (reply: string, unresolved: seq<Question>, readiness: Readiness, move: Move)
    requires negation == Negates(t, x) && lastWasReadyOffer == Offered(t, x)
    requires unresolved0 == Narrowed(t, x) && readiness0 == ReadinessOf(t, x.factsAfterOps, unresolved0)
    ensures var ending := EndingOf(t, x);
            && reply == ReplyAt(t, x, ending) && move == MoveAt(t, x, ending)
            && unresolved == (if ending.NotYet? then NextQuestion(t, x) else [])
            && readiness == ReadinessAt(readiness0, ending)
  {
    var affirmation := t.affirms(t.trim(x.currentMessage));
    unresolved, readiness := unresolved0, readiness0;
    var forceReady := readiness.canPlan || (x.turn >= 3 && readiness.score >= 55 && |readiness.blocking| == 0);
    move, reply := x.outcome.move, t.trim(x.outcome.reply);

    if lastWasReadyOffer && affirmation && readiness.score >= 55 {
      readiness := readiness.(canPlan := true, score := Max(readiness.score, 90));
      unresolved := [];
      move := Plan;
      reply := if reply != "" then reply else DESIGNING;
    } else if lastWasReadyOffer && negation {
      readiness := readiness.(canPlan := true, score := Max(readiness.score, 85));
      unresolved := [];
      move := Ready;
      reply := NO_PROBLEM;
    } else {
      var repeating := Repeats(t, x.lastReply, reply)
                       || (exists i :: 0 <= i < |unresolved| && Repeats(t, x.lastReply, unresolved[i].text))
                       || (negation && Repeats(t, x.lastReply, reply));
      assert repeating == IsRepetitive(t, x);
      if forceReady {
        readiness := readiness.(canPlan := true, score := Max(readiness.score, 85));
        unresolved := [];
        if move.Continue? || repeating || !IsOffer(t, reply) {
          move := Ready;
          reply := READY_OFFER;
        }
      } else if repeating {
        unresolved := Filter(unresolved, NotJustAsked(t, x));
        if negation { reply := if readiness.canPlan then READY_OFFER else UNDERSTOOD; }
      } else {
        NothingToDrop(t, x);
      }
    }
    unresolved := First(unresolved, 1);
    if !readiness.canPlan && !move.Continue? { move := Continue; }
    if x.turn <= 1 && move.Plan? { move := if readiness.canPlan then Ready else Continue; }
  }

  method NormalizeDiscoveryOutcome(t: Reader, x: Input) returns (result: Outcome)
    ensures result == Normalized(t, x)
  {
    var negation := t.negates(t.trim(x.currentMessage));
    var lastWasReadyOffer := IsOffer(t, x.lastReply) || IsOffer(t, x.outcome.reply);
    var assumptions := CollectAssumptions(t, x, negation, lastWasReadyOffer);
    var open, seed := NarrowQuestions(t, x, negation, lastWasReadyOffer);
    var reply, unresolved, readiness, move := Decide(t, x, negation, lastWasReadyOffer, open, seed);
    result := x.outcome.(
      reply := reply,
      unresolved := unresolved,
      assumptions := First(assumptions, 20),
      readiness := readiness,
      move := move,
      summary := if x.outcome.summary != "" then x.outcome.summary else JoinSpaces(First(assumptions, 3)));
  }
}
