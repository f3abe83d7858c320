/** What each step of a builder turn writes, field by field. */
module BuilderSteps {
  import opened StableSort
  import opened BuilderLedger
  import opened BuilderTurns

  /** Opening remembers what the session row says; an event of analytics is appended by itself. */
  lemma OpenInFields(s: State, t: TurnId, v: nat, ranks: Ranks)
    ensures t !in s.turns ==> Step(s, Open(t), ranks) == s.(turns := s.turns[t := Opened(s.version, s.latest)])
    ensures t in s.turns ==> Step(s, Open(t), ranks) == s
    ensures Step(s, RecordAnalytics(v), ranks) == s.(events := s.events + [Analytics(v)])
  {
  }

  /** A reservation takes the next two numbers and writes the user's row, unless the number read is no longer the
      latest or its successor is taken. */
  lemma ClaimInFields(s: State, t: TurnId, ranks: Ranks)
    requires t in s.turns && s.turns[t].Opened?
    ensures var now, turn := Step(s, Claim(t), ranks), s.turns[t];
            if turn.latest == s.latest && s.latest + 1 !in s.messages
            then now == State(s.version, s.latest + 2, s.requirements, s.rows, s.events, s.snapshots,
                              s.messages[s.latest + 1 := Message(User, Completed, t)], s.plans,
                              s.turns[t := Reserved(turn.version, s.latest + 1)], s.reservations + [t])
            else now == s.(turns := s.turns[t := Refused])
  {
  }

  /** Loading keeps the turn's version and slot, and reads the active facts by category and key. */
  lemma LoadInFields(s: State, t: TurnId, ranks: Ranks)
    requires t in s.turns && s.turns[t].Reserved? && OneActivePerKey(s.rows)
    ensures var now, turn := Step(s, Load(t), ranks), s.turns[t];
            && now == s.(turns := now.turns) && now.turns.Keys == s.turns.Keys
            && (forall u :: u in s.turns && u != t ==> now.turns[u] == s.turns[u])
            && now.turns[t].Loaded? && now.turns[t].version == turn.version && now.turns[t].user == turn.user
            && ListsActive(s.rows, now.turns[t].facts) && AreInOrder(ranks.database, now.turns[t].facts)
  {
    LoadedFacts(s.rows, ranks.database);
  }

  ghost predicate ListsActive(rows: seq<FactRow>, facts: seq<Fact>) {
    forall f :: f in facts <==> exists k :: 0 <= k < |rows| && rows[k].status == Active && rows[k].fact == f
  }

  ghost predicate AreInOrder(rank: Collation, facts: seq<Fact>) {
    forall k, l :: 0 <= k < l < |facts| ==>
      rank(facts[k].category) < rank(facts[l].category)
      || (rank(facts[k].category) == rank(facts[l].category) && rank(facts[k].key) <= rank(facts[l].key))
  }

  lemma LoadedFacts(rows: seq<FactRow>, rank: Collation)
    ensures var facts := Sort(FactOrder(rank), ActiveFacts(rows)); ListsActive(rows, facts) && AreInOrder(rank, facts)
  {
    var facts, sorted := ActiveFacts(rows), Sort(FactOrder(rank), ActiveFacts(rows));
    FactOrderIsPreorder(rank);
    SortIsStable(FactOrder(rank), facts);
    assert forall f :: f in sorted <==> f in multiset(sorted);
    assert forall f :: f in facts <==> f in multiset(facts);
    forall f ensures f in facts <==> exists k :: 0 <= k < |rows| && rows[k].status == Active && rows[k].fact == f {
      ActiveFactsInRows(rows, f);
    }
  }

  lemma {:induction false} ActiveFactsInRows(rows: seq<FactRow>, f: Fact)
    ensures f in ActiveFacts(rows) <==> exists k :: 0 <= k < |rows| && rows[k].status == Active && rows[k].fact == f
  {
    if rows != [] {
      var init := rows[..|rows| - 1];
      ActiveFactsInRows(init, f);
      assert forall k :: 0 <= k < |init| ==> init[k] == rows[k];
    }
  }

  /** A commit moves to the next version and writes facts, events, snapshot, reply and cached state together;
      what fails leaves nothing but its mark on the turn. */
  lemma PersistInFields(s: State, t: TurnId, o: Outcome, ranks: Ranks)
    requires t in s.turns && s.turns[t].Loaded?
    ensures var now, turn := Step(s, Persist(t, o), ranks), s.turns[t];
            if turn.version == s.version && turn.version + 1 !in s.snapshots && turn.user + 1 !in s.messages
            then
              && now.version == s.version + 1 && now.latest == s.latest && now.plans == s.plans
              && now.reservations == s.reservations
              && now.requirements.facts == ApplyOutcome(turn.facts, o.operations, turn.user, ranks.runtime)
              && now.requirements.unresolved == o.unresolved && now.requirements.assumptions == o.assumptions
              && now.rows == LedgerOps(s.rows, o.operations, turn.user)
              && now.events == s.events + EventsFor(s.rows, o.operations, turn.user, s.version)
              && now.snapshots == s.snapshots[s.version + 1 := now.requirements]
              && now.messages == s.messages[turn.user + 1 := Message(Assistant, Completed, t)]
              && now.turns == s.turns[t := if o.wantsPlan then Planning(s.version + 1, turn.user)
                                           else Finished(turn.user)]
            else now == s.(turns := s.turns[t := Failing(turn.user)])
  {
  }

  /** The events of a batch: one per operation, in order, with the message and both versions. */
  lemma {:induction false} EventsInFields(rows: seq<FactRow>, ops: seq<Operation>, source: MessageId, from: nat, i: nat)
    requires i < |ops|
    ensures |EventsFor(rows, ops, source, from)| == |ops|
    ensures var e := EventsFor(rows, ops, source, from)[i];
            && e.FactEvent? && e.message == source && e.op == ops[i] && e.fromVersion == from && e.toVersion == from + 1
            && (ops[i].kind == RemoveFact ==> e.kind == FactRejected)
            && (ops[i].kind == SetFact ==>
                  e.kind == if IsActive(LedgerOps(rows, ops[..i], source), ops[i].key)
                            then FactSuperseded else FactAdded)
  {
    var before, key := LedgerOps(rows, ops[..i], source), ops[i].key;
    EventsForShape(rows, ops, source, from);
    FindActiveFinds(before, key);
    if k :| 0 <= k < |before| && before[k].status == Active && before[k].fact.key == key {
      assert Live(before[k], key);
    }
  }

  ghost predicate IsActive(rows: seq<FactRow>, key: string) {
    exists k :: 0 <= k < |rows| && rows[k].status == Active && rows[k].fact.key == key
  }

  /** A plan is filed under the version it was drawn from, with the next number; older ones turn stale. */
  lemma StorePlanInFields(s: State, t: TurnId, ranks: Ranks)
    requires t in s.turns && s.turns[t].Planning?
    ensures var now, turn := Step(s, StorePlan(t), ranks), s.turns[t];
            && now == s.(plans := now.plans, turns := s.turns[t := Finished(turn.user)])
            && |now.plans| == |s.plans| + 1
            && now.plans[|s.plans|] == Plan(turn.version, |s.plans| + 1, false)
            && forall k :: 0 <= k < |s.plans| ==>
                 now.plans[k] == Plan(s.plans[k].requirementsVersion, s.plans[k].planVersion, true)
  {
  }

  /** An error may strike wherever slots are held and the turn has not ended; the failed row is written next, or
      the process dies first. */
  lemma FailureInFields(s: State, t: TurnId, ranks: Ranks)
    requires t in s.turns
    ensures var turn := s.turns[t];
            && (turn.Reserved? || turn.Loaded? || turn.Planning? ==>
                  Step(s, Throw(t), ranks) == s.(turns := s.turns[t := Failing(turn.user)]))
            && (turn.Failing? ==>
                  Step(s, MarkFailed(t), ranks)
                  == s.(messages := s.messages[turn.user + 1 := Message(Assistant, Failed, t)],
                        turns := s.turns[t := FailedTurn(turn.user)]))
            && (turn.Reserved? || turn.Loaded? || turn.Planning? || turn.Failing? ==>
                  Step(s, Vanish(t), ranks) == s.(turns := s.turns[t := Vanished(turn.user)]))
            && (turn.Opened? || turn.Refused? || turn.Finished? || turn.FailedTurn? || turn.Vanished? ==>
                  Step(s, Throw(t), ranks) == s && Step(s, MarkFailed(t), ranks) == s && Step(s, Vanish(t), ranks) == s)
  {
  }
}
