/** What the hygiene of discovery turns guarantees, whatever the model says. */
module DiscoveryLaws {
  import opened BuilderLedger
  import opened DiscoveryNormalize

  // ---------------------------------------------------------------- questions

  /** The first question with its key. */
  ghost predicate IsFirstOf(t: Reader, items: seq<Question>, q: Question) {
    exists k :: 0 <= k < |items| && items[k] == q && forall j :: 0 <= j < k ==> t.lower(items[j].key) != t.lower(q.key)
  }

  predicate SameKey(t: Reader, a: Question, b: Question) { t.lower(a.key) == t.lower(b.key) }

  ghost predicate KeysDiffer(t: Reader, items: seq<Question>) {
    forall i, j :: 0 <= i < j < |items| ==> !SameKey(t, items[i], items[j])
  }

  /** Deduplication keeps the first question of every key and no other. */
  lemma {:induction false} FirstPerKeyKeepsFirst(t: Reader, items: seq<Question>)
    ensures forall q :: q in FirstPerKey(t, items) <==> IsFirstOf(t, items, q)
    ensures KeysDiffer(t, FirstPerKey(t, items))
  {
    if items != [] {
      var init, last := items[..|items| - 1], items[|items| - 1];
      FirstPerKeyKeepsFirst(t, init);
      forall q ensures q in FirstPerKey(t, items) <==> IsFirstOf(t, items, q) { FirstOfSplits(t, items, q); }
      var out := FirstPerKey(t, init);
      if !HasKey(t, init, t.lower(last.key)) {
        forall i | 0 <= i < |out| ensures !SameKey(t, out[i], last) {
          assert out[i] in out && IsFirstOf(t, init, out[i]);
          var k :| 0 <= k < |init| && init[k] == out[i];
          assert HasKey(t, init, t.lower(out[i].key));
        }
        assert FirstPerKey(t, items) == out + [last];
      }
    }
  }

  lemma FirstOfSplits(t: Reader, items: seq<Question>, q: Question)
    requires items != []
    ensures var init, last := items[..|items| - 1], items[|items| - 1];
            IsFirstOf(t, items, q) <==> IsFirstOf(t, init, q) || (q == last && !HasKey(t, init, t.lower(last.key)))
  {
  }

  lemma {:induction false} FilterMembers(items: seq<Question>, p: Question -> bool)
    ensures |Filter(items, p)| <= |items|
    ensures forall q :: q in Filter(items, p) <==> q in items && p(q)
  {
    if items != [] {
      FilterMembers(items[1..], p);
      assert items == [items[0]] + items[1..];
    }
  }

  lemma NarrowedAreOpen(t: Reader, x: Input, q: Question)
    requires q in Narrowed(t, x)
    ensures IsFirstOf(t, x.outcome.unresolved, q) && IsOpen(t, x, q)
  {
    FirstPerKeyKeepsFirst(t, x.outcome.unresolved);
    FilterMembers(FirstPerKey(t, x.outcome.unresolved), Open(t, x));
    FilterMembers(OpenQuestions(t, x), Blocks());
    assert q in OpenQuestions(t, x);
  }

  /** At most one question is left. It is the model's, the first with its key, neither answered by a fact
      nor declined just now, and not like what the assistant has just said. */
  lemma OneNewQuestion(t: Reader, x: Input)
    ensures var r := Normalized(t, x);
            && |r.unresolved| <= 1
            && forall q :: q in r.unresolved ==>
                 && IsFirstOf(t, x.outcome.unresolved, q)
                 && !IsFactKey(t, x.factsAfterOps, t.lower(q.key))
                 && (Declines(t, x) ==> !HasKey(t, x.priorUnresolved, t.lower(q.key)))
                 && !Repeats(t, x.lastReply, q.text)
  {
    forall q | q in Normalized(t, x).unresolved
      ensures IsFirstOf(t, x.outcome.unresolved, q) && IsOpen(t, x, q) && !Repeats(t, x.lastReply, q.text)
    {
      FilterMembers(Narrowed(t, x), NotJustAsked(t, x));
      assert q in Filter(Narrowed(t, x), NotJustAsked(t, x));
      NarrowedAreOpen(t, x, q);
    }
  }

  /** While not enough is known, a turn is left without a question only if the assistant has just asked
      every one that remained. */
  lemma QuestionsAreOnlyDroppedWhenRepeated(t: Reader, x: Input)
    requires EndingOf(t, x).NotYet?
    ensures Normalized(t, x).unresolved == [] <==> forall q :: q in Narrowed(t, x) ==> Repeats(t, x.lastReply, q.text)
  {
    var left := Filter(Narrowed(t, x), NotJustAsked(t, x));
    FilterMembers(Narrowed(t, x), NotJustAsked(t, x));
    if left != [] { assert left[0] in left; }
  }

  // ---------------------------------------------------------------- planning

  /** A turn may plan or say it is ready exactly when the readiness says so; then nothing is left open and
      the score is at least 0.85. The first turn never plans. */
  lemma MovesFollowReadiness(t: Reader, x: Input)
    ensures var r := Normalized(t, x);
            && (r.move != Continue <==> r.readiness.canPlan)
            && (r.readiness.canPlan ==> r.unresolved == [] && 85 <= r.readiness.score <= 100)
            && (x.turn <= 1 ==> r.move != Plan)
            && (r.move == Plan ==>
                 (Offered(t, x) && Affirms(t, x)) || (x.outcome.move == Plan && IsOffer(t, t.trim(x.outcome.reply))))
            && r.operations == x.outcome.operations && |r.assumptions| <= 20
  {
    ScoresAreInRange(t, x);
    if Normalized(t, x).move == Plan { PlansWereOffered(t, x); }
  }

  lemma ScoresAreInRange(t: Reader, x: Input)
    ensures 0 <= ReadinessOf(t, x.factsAfterOps, Narrowed(t, x)).score <= 100
  {
  }

  lemma PlansWereOffered(t: Reader, x: Input)
    requires Normalized(t, x).move == Plan
    ensures (Offered(t, x) && Affirms(t, x)) || (x.outcome.move == Plan && IsOffer(t, t.trim(x.outcome.reply)))
    ensures x.turn > 1
  {
  }

  /** Blocking questions are still listed although planning is allowed exactly when the user answered an
      offer over them. */
  lemma BlockersDespiteReadiness(t: Reader, x: Input)
    ensures var r := Normalized(t, x);
            r.readiness.canPlan && r.readiness.blocking != [] <==>
              (EndingOf(t, x).Accepted? || EndingOf(t, x).TurnedDown?) && BlockingKeys(Narrowed(t, x)) != []
  {
  }

  // ---------------------------------------------------------------- after the hygiene

  function EnforceDiscoveryBoundary(outcome: Outcome, turn: int): Outcome {
    if turn <= 1 && outcome.move.Plan? then outcome.(move := if outcome.readiness.canPlan then Ready else Continue)
    else if !outcome.readiness.canPlan && outcome.move != Continue then outcome.(move := Continue)
    else outcome
  }

  function ApplyRedesignIntent(outcome: Outcome): Outcome {
    if !outcome.readiness.canPlan then outcome else outcome.(move := Plan)
  }

  /** What a conversation turn persists. */
  function Concluded(t: Reader, x: Input, redesign: bool): Outcome {
    var bounded := EnforceDiscoveryBoundary(Normalized(t, x), x.turn);
    if redesign then ApplyRedesignIntent(bounded) else bounded
  }

  /** The boundary has nothing left to enforce. */
  lemma BoundaryChangesNothing(t: Reader, x: Input)
    ensures EnforceDiscoveryBoundary(Normalized(t, x), x.turn) == Normalized(t, x)
  {
  }

  /** Redesign plans exactly when planning is allowed, and that is all it does; without it the first turn
      never plans, with it even that one may. */
  lemma OnlyRedesignAddsPlans(t: Reader, x: Input)
    ensures var plain, again := Concluded(t, x, false), Concluded(t, x, true);
            && plain == Normalized(t, x)
            && (again.move == Plan <==> plain.readiness.canPlan)
            && again.(move := plain.move) == plain
            && (plain.move == Plan ==> again == plain)
            && (plain.move == Plan ==> x.turn > 1)
  {
    BoundaryChangesNothing(t, x);
    MovesFollowReadiness(t, x);
  }

  // ---------------------------------------------------------------- where the code falls short of its comment

  /** When the model repeats the assistant's last words, they go out again in these cases, by how the turn
      ends: always but for an empty reply if the user takes up the offer; only as one of the fixed texts if
      the user turns it down or enough is known; and otherwise unless the message was a "no". */
  lemma EchoesGoOut(t: Reader, x: Input)
    requires Repeats(t, x.lastReply, t.trim(x.outcome.reply))
    ensures var own := t.trim(x.outcome.reply);
            Normalized(t, x).reply == own <==>
              match EndingOf(t, x)
              case Accepted => own != ""
              case TurnedDown => own == NO_PROBLEM
              case Enough => own == READY_OFFER
              case NotYet => !Negates(t, x) || own == UNDERSTOOD
  {
  }

  ghost predicate IsNoteOf(prior: seq<Question>, note: string) {
    exists i :: 0 <= i < |prior| && note == DeclinedNote(prior[i])
  }

  lemma {:induction false} NotesAreAdded(notes: seq<string>, prior: seq<Question>)
    ensures notes <= AddNotes(notes, prior)
    ensures forall note :: note in AddNotes(notes, prior) <==> note in notes || IsNoteOf(prior, note)
  {
    if prior != [] {
      var init := prior[..|prior| - 1];
      NotesAreAdded(notes, init);
      forall note ensures IsNoteOf(prior, note) <==> IsNoteOf(init, note) || note == DeclinedNote(prior[|init|]) {
        assert forall i :: 0 <= i < |init| ==> prior[i] == init[i];
      }
    }
  }

  lemma {:induction false} NotesGrow(notes: seq<string>, prior: seq<Question>, n: nat)
    requires n <= |prior|
    ensures AddNotes(notes, prior[..n]) <= AddNotes(notes, prior)
  {
    if n < |prior| {
      assert prior[..|prior| - 1][..n] == prior[..n];
      NotesGrow(notes, prior[..|prior| - 1], n);
    } else {
      assert prior[..n] == prior;
    }
  }

  /** A note that is new stands right behind what was collected for the questions before it. */
  lemma NewNoteIsNext(notes: seq<string>, prior: seq<Question>, i: nat)
    requires i < |prior| && DeclinedNote(prior[i]) !in notes
    requires forall j :: 0 <= j < i ==> DeclinedNote(prior[j]) != DeclinedNote(prior[i])
    ensures var before, all := AddNotes(notes, prior[..i]), AddNotes(notes, prior);
            DeclinedNote(prior[i]) !in before && before + [DeclinedNote(prior[i])] <= all
  {
    NotesAreAdded(notes, prior[..i]);
    AddNotesSnoc(notes, prior, i);
    NotesGrow(notes, prior, i + 1);
  }

  /** A prefix followed by something new: a cut keeps the new element exactly behind the prefix. */
  lemma CutKeeps(all: seq<string>, before: seq<string>, note: string, n: nat)
    requires before + [note] <= all && note !in before
    ensures note in First(all, n) <==> |before| < n
  {
    assert all[|before|] == note;
    assert forall k :: 0 <= k < |before| ==> all[k] == before[k];
    if |before| < n { assert First(all, n)[|before|] == note; }
  }

  /** A declined question turns into an assumption exactly when its note was one already or fewer than
      twenty are collected before it. */
  lemma DeclinedQuestionsAreNoted(t: Reader, x: Input, i: nat)
    requires Declines(t, x) && i < |x.priorUnresolved|
    requires forall j :: 0 <= j < i ==> DeclinedNote(x.priorUnresolved[j]) != DeclinedNote(x.priorUnresolved[i])
    ensures var base, note := BaseAssumptions(t, x), DeclinedNote(x.priorUnresolved[i]);
            note in Normalized(t, x).assumptions <==>
              note in base || |AddNotes(base, x.priorUnresolved[..i])| < 20
  {
    var base, note := BaseAssumptions(t, x), DeclinedNote(x.priorUnresolved[i]);
    var notes, all := AddNotes(base, x.priorUnresolved), AllAssumptions(t, x);
    NotesAreAdded(base, x.priorUnresolved);
    assert base <= notes <= all;
    if note in base {
      var k :| 0 <= k < |base| && base[k] == note;
      assert First(all, 20)[k] == note;
    } else {
      var before := AddNotes(base, x.priorUnresolved[..i]);
      NewNoteIsNext(base, x.priorUnresolved, i);
      assert before + [note] <= all;
      CutKeeps(all, before, note, 20);
    }
  }

  /** With twenty assumptions there already is no room for any. */
  lemma TwentyAssumptionsLeaveNoRoom(t: Reader, x: Input)
    requires |BaseAssumptions(t, x)| == 20
    ensures Normalized(t, x).assumptions == BaseAssumptions(t, x)
  {
    NotesAreAdded(BaseAssumptions(t, x), x.priorUnresolved);
    var base, all := BaseAssumptions(t, x), AllAssumptions(t, x);
    assert base <= all;
    assert First(all, 20) == all[..20] == base;
  }

  lemma {:induction false} DistinctStays(items: seq<string>)
    requires forall i, j :: 0 <= i < j < |items| ==> items[i] != items[j]
    ensures Distinct(items) == items
  {
    if items != [] {
      DistinctStays(items[..|items| - 1]);
      assert items == items[..|items| - 1] + [items[|items| - 1]];
    }
  }

  lemma {:induction false} TrimmedStays(t: Reader, items: seq<string>)
    requires forall i :: 0 <= i < |items| ==> t.trim(items[i]) == items[i] && items[i] != ""
    ensures Trimmed(t, items) == items
  {
    if items != [] { TrimmedStays(t, items[1..]); }
  }

  function SimpleReader(): Reader {
    var no := (f: Fact) => false;
    Reader((s: string) => s, (s: string) => s, (s: string) => true, (s: string) => false, (s: string) => false,
           (a: string, b: string) => false, no, no, no, no, no, (s: string) => false, (s: string) => false)
  }

  function Word(n: nat): string {
    seq(n + 1, i => 'a')
  }

  function TwentyWords(): seq<string> {
    seq(20, i requires 0 <= i < 20 => Word(i))
  }

  function CrowdedInput(q: Question): Input {
    Input(Outcome("", [], [], TwentyWords(), Readiness(0, false, []), Continue, "", ""), [], [q], [], "no", "", 1)
  }

  lemma CrowdedBase(q: Question)
    ensures BaseAssumptions(SimpleReader(), CrowdedInput(q)) == TwentyWords()
    ensures DeclinedNote(q) !in TwentyWords()
  {
    WordsDiffer(DeclinedNote(q));
    PlainAssumptionsStay(SimpleReader(), CrowdedInput(q));
  }

  lemma PlainAssumptionsStay(t: Reader, x: Input)
    requires var notes := x.outcome.assumptions;
             && x.priorAssumptions == [] && |notes| <= 20
             && (forall i :: 0 <= i < |notes| ==> t.trim(notes[i]) == notes[i] && notes[i] != "")
             && (forall i, j :: 0 <= i < j < |notes| ==> notes[i] != notes[j])
    ensures BaseAssumptions(t, x) == x.outcome.assumptions
  {
    var notes := x.outcome.assumptions;
    assert notes + x.priorAssumptions == notes;
    TrimmedStays(t, notes);
    DistinctStays(notes);
  }

  lemma WordsDiffer(note: string)
    ensures var words := TwentyWords();
            && (forall i, j :: 0 <= i < j < |words| ==> words[i] != words[j])
            && (forall i :: 0 <= i < |words| ==> words[i] != "")
            && (note != "" && note[0] != 'a' ==> note !in words)
  {
    var words := TwentyWords();
    forall i, j | 0 <= i < j < |words| ensures words[i] != words[j] {
      assert |words[i]| == i + 1 && |words[j]| == j + 1;
    }
    forall k | 0 <= k < |words| && note != "" && note[0] != 'a' ensures words[k] != note {
      assert words[k][0] == 'a';
    }
  }

  /** Twenty different assumptions and one declined question: its note is lost. */
  lemma NotesCanBeLost(q: Question)
    ensures Declines(SimpleReader(), CrowdedInput(q)) && CrowdedInput(q).priorUnresolved == [q]
    ensures DeclinedNote(q) !in Normalized(SimpleReader(), CrowdedInput(q)).assumptions
  {
    CrowdedBase(q);
    assert [q][..0] == [];
    DeclinedQuestionsAreNoted(SimpleReader(), CrowdedInput(q), 0);
  }
}
