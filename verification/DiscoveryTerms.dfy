/** What a discovery turn comes to, in terms of the known facts, the user's message and the texts. */
module DiscoveryTerms {
  import opened BuilderLedger
  import opened DiscoveryNormalize
  import opened DiscoveryLaws

  // ---------------------------------------------------------------- readiness

  /** Some fact is of one of the categories or hints at them. */
  ghost predicate Knows(facts: seq<Fact>, categories: set<string>, hints: Fact -> bool) {
    exists f :: f in facts && (f.category in categories || hints(f))
  }

  /** Objective 30, input 25, output 25, trigger 20, or 10 if objective and output suggest one. */
  ghost function KnownScore(t: Reader, facts: seq<Fact>): int {
    var objective := Knows(facts, {"objective"}, t.hintsObjective);
    var output := Knows(facts, {"output", "workflow"}, t.hintsOutput);
    (if objective then 30 else 0)
    + (if Knows(facts, {"input", "integration"}, t.hintsInput) then 25 else 0)
    + (if output then 25 else 0)
    + (if Knows(facts, {"trigger"}, t.hintsTrigger) then 20 else if objective && output then 10 else 0)
  }

  ghost predicate CoreIsKnown(t: Reader, facts: seq<Fact>) {
    && Knows(facts, {"objective"}, t.hintsObjective) && Knows(facts, {"output", "workflow"}, t.hintsOutput)
    && (Knows(facts, {"input", "integration"}, t.hintsInput) || Knows(facts, {"trigger"}, t.hintsTrigger))
  }

  lemma KnowledgeInFacts(facts: seq<Fact>, category: string, hints: Fact -> bool)
    ensures HasCategory(facts, category) <==> exists f :: f in facts && f.category == category
    ensures HasHint(facts, hints) <==> exists f :: f in facts && hints(f)
  {
    if f :| f in facts && f.category == category {
      var i :| 0 <= i < |facts| && facts[i] == f;
      assert facts[i].category == category;
    }
    if f :| f in facts && hints(f) {
      var i :| 0 <= i < |facts| && facts[i] == f;
      assert hints(facts[i]);
    }
  }

  lemma KnowsEach(t: Reader, facts: seq<Fact>)
    ensures KnowsObjective(t, facts) <==> Knows(facts, {"objective"}, t.hintsObjective)
    ensures KnowsInput(t, facts) <==> Knows(facts, {"input", "integration"}, t.hintsInput)
    ensures KnowsOutput(t, facts) <==> Knows(facts, {"output", "workflow"}, t.hintsOutput)
    ensures KnowsTrigger(t, facts) <==> Knows(facts, {"trigger"}, t.hintsTrigger)
  {
    KnowledgeInFacts(facts, "objective", t.hintsObjective);
    KnowledgeInFacts(facts, "input", t.hintsInput);
    KnowledgeInFacts(facts, "integration", t.hintsInput);
    KnowledgeInFacts(facts, "output", t.hintsOutput);
    KnowledgeInFacts(facts, "workflow", t.hintsOutput);
    KnowledgeInFacts(facts, "trigger", t.hintsTrigger);
  }

  lemma {:induction false} BlockingIsListed(questions: seq<Question>)
    ensures forall key :: key in BlockingKeys(questions) <==> exists q :: q in questions && q.blocking && q.key == key
    ensures BlockingKeys(questions) == [] <==> forall q :: q in questions ==> !q.blocking
    decreases questions
  {
    if questions != [] {
      BlockingIsListed(questions[1..]);
      assert questions == [questions[0]] + questions[1..];
    }
  }

  /** Planning is possible exactly with an objective, an output, an input or a trigger, and nothing blocking. */
  lemma ReadinessInFacts(t: Reader, facts: seq<Fact>, questions: seq<Question>)
    ensures var r := ReadinessOf(t, facts, questions);
            && r.score == KnownScore(t, facts)
            && (r.canPlan <==> CoreIsKnown(t, facts) && forall q :: q in questions ==> !q.blocking)
            && (forall key :: key in r.blocking <==> exists q :: q in questions && q.blocking && q.key == key)
  {
    KnowsEach(t, facts);
    BlockingIsListed(questions);
  }

  // ---------------------------------------------------------------- the user's message

  /** Either text offers to design: the assistant's last words or the model's own. */
  predicate IsOffered(t: Reader, x: Input) {
    (x.lastReply != "" && t.offersDesign(x.lastReply)) || (x.outcome.reply != "" && t.offersDesign(x.outcome.reply))
  }

  predicate SaysNo(t: Reader, x: Input) { t.negates(t.trim(x.currentMessage)) }

  predicate SaysYes(t: Reader, x: Input) { t.affirms(t.trim(x.currentMessage)) }

  predicate IsEcho(t: Reader, x: Input, text: string) {
    x.lastReply != "" && t.similar(x.lastReply, text)
  }

  // ---------------------------------------------------------------- which questions are open

  /** Not answered by a plain "no", not a known fact, and not about where mail lives if mail is mentioned. */
  ghost predicate IsUnanswered(t: Reader, x: Input, q: Question) {
    && !(SaysNo(t, x) && !IsOffered(t, x) && exists p :: p in x.priorUnresolved && t.lower(p.key) == t.lower(q.key))
    && !(exists f :: f in x.factsAfterOps && t.lower(f.key) == t.lower(q.key))
    && !(t.asksForSource(q.key) && exists f :: f in x.factsAfterOps && t.hintsMail(f))
  }

  lemma KeysInTerms(t: Reader, questions: seq<Question>, facts: seq<Fact>, key: string)
    ensures HasKey(t, questions, key) <==> exists p :: p in questions && t.lower(p.key) == key
    ensures IsFactKey(t, facts, key) <==> exists f :: f in facts && t.lower(f.key) == key
  {
    if p :| p in questions && t.lower(p.key) == key {
      var i :| 0 <= i < |questions| && questions[i] == p;
      assert t.lower(questions[i].key) == key;
    }
    if f :| f in facts && t.lower(f.key) == key {
      var i :| 0 <= i < |facts| && facts[i] == f;
      assert t.lower(facts[i].key) == key;
    }
  }

  lemma UnansweredIsOpen(t: Reader, x: Input, q: Question)
    ensures IsOpen(t, x, q) <==> IsUnanswered(t, x, q)
  {
    KeysInTerms(t, x.priorUnresolved, x.factsAfterOps, t.lower(q.key));
    KnowledgeInFacts(x.factsAfterOps, "", t.hintsMail);
    if x.priorUnresolved == [] {
      assert !exists p :: p in x.priorUnresolved && t.lower(p.key) == t.lower(q.key);
    }
  }

  /** The model's questions, first of their keys, that are unanswered. */
  lemma OpenInTerms(t: Reader, x: Input, q: Question)
    ensures q in OpenQuestions(t, x) <==> IsFirstOf(t, x.outcome.unresolved, q) && IsUnanswered(t, x, q)
  {
    FirstPerKeyKeepsFirst(t, x.outcome.unresolved);
    FilterMembers(FirstPerKey(t, x.outcome.unresolved), Open(t, x));
    UnansweredIsOpen(t, x, q);
  }

  /** Filtering and deduplicating go through the list in order. */
  lemma InOrder(t: Reader, items: seq<Question>, q: Question, keep: Question -> bool)
    ensures Filter([q] + items, keep) == (if keep(q) then [q] else []) + Filter(items, keep)
    ensures FirstPerKey(t, items + [q])
            == FirstPerKey(t, items) + (if exists p :: p in items && t.lower(p.key) == t.lower(q.key) then [] else [q])
  {
    assert ([q] + items)[1..] == items && (items + [q])[..|items|] == items;
    KeysInTerms(t, items, [], t.lower(q.key));
    assert FirstPerKey(t, items) + [] == FirstPerKey(t, items);
  }

  /** The first question a filter keeps, if it keeps any. */
  lemma {:induction false} FirstKept(items: seq<Question>, keep: Question -> bool)
    ensures var r := First(Filter(items, keep), 1);
            && |r| <= 1
            && (r == [] <==> forall k :: 0 <= k < |items| ==> !keep(items[k]))
            && (r != [] ==>
                  exists k :: 0 <= k < |items| && r[0] == items[k] && keep(items[k])
                              && forall j :: 0 <= j < k ==> !keep(items[j]))
    decreases items
  {
    if items != [] && !keep(items[0]) {
      var tail := items[1..];
      FirstKept(tail, keep);
      assert Filter(items, keep) == Filter(tail, keep);
      var r := First(Filter(tail, keep), 1);
      if r != [] {
        var k :| 0 <= k < |tail| && r[0] == tail[k] && keep(tail[k]) && forall j :: 0 <= j < k ==> !keep(tail[j]);
        assert items[k + 1] == tail[k];
        assert forall j :: 1 <= j < k + 1 ==> items[j] == tail[j - 1];
      } else {
        assert forall j :: 1 <= j < |items| ==> items[j] == tail[j - 1];
      }
    } else if items != [] {
      assert Filter(items, keep)[0] == items[0];
    }
  }

  /** Once enough is known, by turn three or because planning is possible, one blocking question is left. */
  lemma NarrowedInTerms(t: Reader, x: Input)
    ensures var open, score := OpenQuestions(t, x), KnownScore(t, x.factsAfterOps);
            var enough := (CoreIsKnown(t, x.factsAfterOps) && forall q :: q in open ==> !q.blocking)
                          || (score >= 55 && x.turn >= 3);
            && (!enough ==> Narrowed(t, x) == open)
            && (enough ==>
                  && |Narrowed(t, x)| <= 1
                  && (Narrowed(t, x) == [] <==> forall k :: 0 <= k < |open| ==> !open[k].blocking)
                  && (Narrowed(t, x) != [] ==>
                        exists k :: 0 <= k < |open| && Narrowed(t, x)[0] == open[k] && open[k].blocking
                                    && forall j :: 0 <= j < k ==> !open[j].blocking))
  {
    var open := OpenQuestions(t, x);
    ReadinessInFacts(t, x.factsAfterOps, open);
    FirstKept(open, Blocks());
  }

  // ---------------------------------------------------------------- how a turn ends

  ghost predicate IsAccepted(t: Reader, x: Input) {
    IsOffered(t, x) && SaysYes(t, x) && KnownScore(t, x.factsAfterOps) >= 55
  }

  ghost predicate IsTurnedDown(t: Reader, x: Input) {
    !IsAccepted(t, x) && IsOffered(t, x) && SaysNo(t, x)
  }

  /** Planning is possible, or enough is known by turn three; nothing blocks either way. */
  ghost predicate IsEnough(t: Reader, x: Input) {
    && !IsAccepted(t, x) && !IsTurnedDown(t, x)
    && (forall q :: q in Narrowed(t, x) ==> !q.blocking)
    && (CoreIsKnown(t, x.factsAfterOps) || (x.turn >= 3 && KnownScore(t, x.factsAfterOps) >= 55))
  }

  lemma EndingsInTerms(t: Reader, x: Input)
    ensures EndingOf(t, x) == Accepted <==> IsAccepted(t, x)
    ensures EndingOf(t, x) == TurnedDown <==> IsTurnedDown(t, x)
    ensures EndingOf(t, x) == Enough <==> IsEnough(t, x)
  {
    ReadinessInFacts(t, x.factsAfterOps, Narrowed(t, x));
    BlockingIsListed(Narrowed(t, x));
  }

  /** The model's own words are kept: it moves on, offers the design, and repeats nothing. */
  ghost predicate ModelOffersAnew(t: Reader, x: Input) {
    var own := t.trim(x.outcome.reply);
    && x.outcome.move != Continue && own != "" && t.offersDesign(own)
    && !IsEcho(t, x, own) && forall q :: q in Narrowed(t, x) ==> !IsEcho(t, x, q.text)
  }

  lemma RepetitionInTerms(t: Reader, x: Input)
    ensures IsRepetitive(t, x) <==>
            IsEcho(t, x, t.trim(x.outcome.reply)) || exists q :: q in Narrowed(t, x) && IsEcho(t, x, q.text)
    ensures KeepsModelMove(t, x) <==> ModelOffersAnew(t, x)
  {
    var open := Narrowed(t, x);
    if q :| q in open && IsEcho(t, x, q.text) {
      var i :| 0 <= i < |open| && open[i] == q;
      assert Repeats(t, x.lastReply, open[i].text);
    }
  }

  /** When exactly a turn plans: never the first, and only if the user takes up an offer with a score of 0.55, or
      enough is known and the model itself proposes the design in new words. */
  lemma PlansExactlyWhen(t: Reader, x: Input)
    ensures Normalized(t, x).move == Plan <==>
            x.turn > 1 && (IsAccepted(t, x) || (IsEnough(t, x) && x.outcome.move == Plan && ModelOffersAnew(t, x)))
    ensures Normalized(t, x).move == Continue <==> !IsAccepted(t, x) && !IsTurnedDown(t, x) && !IsEnough(t, x)
  {
    EndingsInTerms(t, x);
    RepetitionInTerms(t, x);
  }

  /** The readiness that is stored. */
  lemma ReadinessInTerms(t: Reader, x: Input)
    ensures var r, known := Normalized(t, x).readiness, KnownScore(t, x.factsAfterOps);
            && (IsAccepted(t, x) ==> r.canPlan && r.score == (if known > 90 then known else 90))
            && (IsTurnedDown(t, x) || IsEnough(t, x) ==> r.canPlan && r.score == (if known > 85 then known else 85))
            && (!IsAccepted(t, x) && !IsTurnedDown(t, x) && !IsEnough(t, x) ==> !r.canPlan && r.score == known)
            && (forall key :: key in r.blocking <==> exists q :: q in Narrowed(t, x) && q.blocking && q.key == key)
  {
    EndingsInTerms(t, x);
    ReadinessInFacts(t, x.factsAfterOps, Narrowed(t, x));
  }

  /** What is said. */
  lemma RepliesInTerms(t: Reader, x: Input)
    ensures var r, own := Normalized(t, x).reply, t.trim(x.outcome.reply);
            && (IsAccepted(t, x) ==> r == if own != "" then own else "Designing that now.")
            && (IsTurnedDown(t, x) ==> r == "No problem \U{2014} say when you want me to design it.")
            && (IsEnough(t, x) ==>
                  r == if ModelOffersAnew(t, x) then own
                       else "I have enough to design this. Say the word and I\U{2019}ll put the plan together.")
            && (!IsAccepted(t, x) && !IsTurnedDown(t, x) && !IsEnough(t, x) ==>
                  var echoes := IsEcho(t, x, own) || exists q :: q in Narrowed(t, x) && IsEcho(t, x, q.text);
                  r ==
                    if echoes && SaysNo(t, x) then
                     "Understood \U{2014} no special filters. What\U{2019}s the one remaining must-have for this agent?"
                    else own)
  {
    EndingsInTerms(t, x);
    RepetitionInTerms(t, x);
  }

  /** The question that is left: none once planning is possible, else the first that is no echo. */
  lemma QuestionInTerms(t: Reader, x: Input)
    ensures var r, open := Normalized(t, x).unresolved, Narrowed(t, x);
            && (IsAccepted(t, x) || IsTurnedDown(t, x) || IsEnough(t, x) ==> r == [])
            && (!IsAccepted(t, x) && !IsTurnedDown(t, x) && !IsEnough(t, x) ==>
                  && |r| <= 1
                  && (r == [] <==> forall k :: 0 <= k < |open| ==> IsEcho(t, x, open[k].text))
                  && (r != [] ==>
                        exists k :: 0 <= k < |open| && r[0] == open[k] && !IsEcho(t, x, open[k].text)
                                    && forall j :: 0 <= j < k ==> IsEcho(t, x, open[j].text)))
  {
    EndingsInTerms(t, x);
    NextInTerms(t, x);
  }

  lemma NextInTerms(t: Reader, x: Input)
    ensures var r, open := NextQuestion(t, x), Narrowed(t, x);
            && |r| <= 1
            && (r == [] <==> forall k :: 0 <= k < |open| ==> IsEcho(t, x, open[k].text))
            && (r != [] ==>
                  exists k :: 0 <= k < |open| && r[0] == open[k] && !IsEcho(t, x, open[k].text)
                              && forall j :: 0 <= j < k ==> IsEcho(t, x, open[j].text))
  {
    FirstKept(Narrowed(t, x), NotJustAsked(t, x));
  }

  // ---------------------------------------------------------------- assumptions and the rest

  /** The collected assumptions: trimmed, without empty ones, the first of equal ones, twenty at most. */
  lemma {:induction false} BaseInTerms(t: Reader, x: Input, note: string)
    ensures |BaseAssumptions(t, x)| <= 20
    ensures note in Trimmed(t, x.outcome.assumptions + x.priorAssumptions) <==>
            note != "" && exists a :: a in x.outcome.assumptions + x.priorAssumptions && t.trim(a) == note
    ensures BaseAssumptions(t, x) <= Distinct(Trimmed(t, x.outcome.assumptions + x.priorAssumptions))
    ensures |Distinct(Trimmed(t, x.outcome.assumptions + x.priorAssumptions))| <= 20 ==>
              (note in BaseAssumptions(t, x) <==> note in Trimmed(t, x.outcome.assumptions + x.priorAssumptions))
  {
    TrimmedInTerms(t, x.outcome.assumptions + x.priorAssumptions, note);
    DistinctInTerms(Trimmed(t, x.outcome.assumptions + x.priorAssumptions), note);
  }

  lemma {:induction false} TrimmedInTerms(t: Reader, items: seq<string>, note: string)
    ensures note in Trimmed(t, items) <==> note != "" && exists a :: a in items && t.trim(a) == note
  {
    if items != [] {
      TrimmedInTerms(t, items[1..], note);
      assert items == [items[0]] + items[1..];
    }
  }

  lemma {:induction false} DistinctInTerms(items: seq<string>, note: string)
    ensures note in Distinct(items) <==> note in items
    ensures forall i, j :: 0 <= i < j < |Distinct(items)| ==> Distinct(items)[i] != Distinct(items)[j]
  {
    if items != [] {
      DistinctInTerms(items[..|items| - 1], note);
      assert items == items[..|items| - 1] + [items[|items| - 1]];
    }
  }

  /** The default trigger is noted exactly when mail is mentioned, no trigger is known, and no note speaks of one. */
  lemma TriggerInTerms(t: Reader, x: Input)
    ensures var no := SaysNo(t, x) && x.priorUnresolved != [] && !IsOffered(t, x);
            var notes := if no then AddNotes(BaseAssumptions(t, x), x.priorUnresolved) else BaseAssumptions(t, x);
            var silent := !(exists f :: f in x.factsAfterOps && f.category == "trigger")
                          && (exists f :: f in x.factsAfterOps && t.hintsMail(f))
                          && !(exists n :: n in notes && t.notesTrigger(n));
            var trigger := "Trigger defaults to new/incoming emails unless the user specified otherwise.";
            var all := notes + (if silent then [trigger] else []);
            Normalized(t, x).assumptions == if |all| > 20 then all[..20] else all
  {
    var notes := if Declines(t, x) then AddNotes(BaseAssumptions(t, x), x.priorUnresolved) else BaseAssumptions(t, x);
    SilenceInTerms(t, x, notes);
    assert notes + [] == notes;
  }

  lemma SilenceInTerms(t: Reader, x: Input, notes: seq<string>)
    ensures DefaultsTrigger(t, x, notes) <==>
            && !(exists f :: f in x.factsAfterOps && f.category == "trigger")
            && (exists f :: f in x.factsAfterOps && t.hintsMail(f))
            && !(exists n :: n in notes && t.notesTrigger(n))
  {
    KnowledgeInFacts(x.factsAfterOps, "trigger", t.hintsMail);
    if n :| n in notes && t.notesTrigger(n) {
      var i :| 0 <= i < |notes| && notes[i] == n;
      assert t.notesTrigger(notes[i]);
    }
  }

  lemma NotesInTerms(notes: seq<string>, prior: seq<Question>, q: Question)
    ensures var rest := AddNotes(notes, prior);
            var note := "User declined further restriction for \"" + q.key + "\": default broadly / no special filter.";
            AddNotes(notes, prior + [q]) == if note in rest then rest else rest + [note]
  {
    assert (prior + [q])[..|prior|] == prior;
  }

  /** What passes through, and the summary. */
  lemma RestInTerms(t: Reader, x: Input)
    ensures var r := Normalized(t, x);
            && r.operations == x.outcome.operations && r.rest == x.outcome.rest
            && (x.outcome.summary != "" ==> r.summary == x.outcome.summary)
            && (x.outcome.summary == "" && |r.assumptions| == 0 ==> r.summary == "")
            && (x.outcome.summary == "" && |r.assumptions| == 1 ==> r.summary == r.assumptions[0])
            && (x.outcome.summary == "" && |r.assumptions| == 2 ==>
                  r.summary == r.assumptions[0] + " " + r.assumptions[1])
            && (x.outcome.summary == "" && |r.assumptions| >= 3 ==>
                  r.summary == r.assumptions[0] + " " + (r.assumptions[1] + " " + r.assumptions[2]))
  {
    var all := AllAssumptions(t, x);
    assert First(First(all, 20), 3) == First(all, 3);
    JoinInTerms(First(all, 3));
  }

  lemma JoinInTerms(parts: seq<string>)
    requires |parts| <= 3
    ensures |parts| == 0 ==> JoinSpaces(parts) == ""
    ensures |parts| == 1 ==> JoinSpaces(parts) == parts[0]
    ensures |parts| == 2 ==> JoinSpaces(parts) == parts[0] + " " + parts[1]
    ensures |parts| == 3 ==> JoinSpaces(parts) == parts[0] + " " + (parts[1] + " " + parts[2])
  {
    if |parts| == 2 {
      assert parts[1..] == [parts[1]];
    } else if |parts| == 3 {
      assert parts[1..] == [parts[1], parts[2]];
      JoinInTerms(parts[1..]);
    }
  }

  /** The boundary of any outcome: no plan on the first turn, and none, nor an offer, without permission. */
  lemma BoundaryInTerms(o: Outcome, turn: int)
    ensures var r := EnforceDiscoveryBoundary(o, turn);
            && r == Outcome(o.reply, o.operations, o.unresolved, o.assumptions, o.readiness, r.move, o.summary, o.rest)
            && (turn <= 1 && o.move == Plan ==> r.move == if o.readiness.canPlan then Ready else Continue)
            && (!(turn <= 1 && o.move == Plan) ==> r.move == if o.readiness.canPlan then o.move else Continue)
    ensures ApplyRedesignIntent(o) ==
            Outcome(o.reply, o.operations, o.unresolved, o.assumptions, o.readiness,
                    if o.readiness.canPlan then Plan else o.move, o.summary, o.rest)
  {
  }
}
