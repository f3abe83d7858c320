/** The builder service over its rows: each method is one database transaction or one guarded
    update, and `ProcessBuilderTurn` is a turn that runs without interference. */
module BuilderStore {
  import opened Wrappers
  import opened StableSort
  import opened BuilderLedger
  import opened BuilderTurns
  import opened BuilderSafety

  datatype TurnError = SequenceTaken | SnapshotTaken | SessionConflict

  class Conversation {
    const ranks: Ranks

    var version: nat
    var latest: nat
    var requirements: Requirements
    var rows: seq<FactRow>
    var events: seq<Event>
    var snapshots: map<nat, Requirements>
    var messages: map<nat, Message>
    var plans: seq<Plan>
    var turns: map<TurnId, Turn>
    var reservations: seq<TurnId>

    ghost function View(): State
      reads this
    {
      State(version, latest, requirements, rows, events, snapshots, messages, plans, turns, reservations)
    }

    constructor (ranks: Ranks)
      ensures View() == EMPTY && this.ranks == ranks
    {
      this.ranks := ranks;
      version, latest := 0, 0;
      requirements := Requirements([], [], []);
      rows, events, plans, reservations := [], [], [], [];
      snapshots, messages, turns := map[], map[], map[];
    }

    /** Reads the session row; nothing is reserved yet. */
    method OpenTurn(t: TurnId)
      requires t !in turns
      modifies `turns
      ensures View() == Step(old(View()), Open(t), ranks)
    {
      turns := turns[t := Opened(version, latest)];
    }

    /** The compare-and-swap that takes a user and an assistant slot. */
    method ReserveTurn(t: TurnId) returns (r: Result<nat, TurnError>)
      requires t in turns && turns[t].Opened?
      modifies `latest, `messages, `turns, `reservations
      ensures View() == Step(old(View()), Claim(t), ranks)
      ensures r.Ok? <==> old(turns[t].latest) == old(latest) && old(latest) + 1 !in old(messages)
      ensures r.Ok? ==> r.value == old(latest) + 1
    {
      var seen := turns[t].latest;
      if latest != seen {
        turns := turns[t := Refused];
        return Err(SessionConflict);
      }
      if seen + 1 in messages {
        turns := turns[t := Refused];
        return Err(SequenceTaken);
      }
      latest := seen + 2;
      messages := messages[seen + 1 := Message(User, Completed, t)];
      turns := turns[t := Reserved(turns[t].version, seen + 1)];
      reservations := reservations + [t];
      r := Ok(seen + 1);
    }

    method LoadFacts(t: TurnId)
      requires t in turns && turns[t].Reserved?
      modifies `turns
      ensures View() == Step(old(View()), Load(t), ranks)
    {
      var facts: seq<Fact> := [];
      for i := 0 to |rows|
        invariant turns == old(turns) && facts == ActiveFacts(rows[..i])
      {
        assert rows[..i + 1][..i] == rows[..i];
        if rows[i].status.Active? { facts := facts + [rows[i].fact]; }
      }
      assert rows[..|rows|] == rows;
      turns := turns[t := Loaded(turns[t].version, turns[t].user, Sort(FactOrder(ranks.database), facts))];
    }

    /** One ledger operation and one event per operation of the batch. */
    method WriteBatch(ops: seq<Operation>, source: MessageId, fromVersion: nat)
      modifies `rows, `events
      ensures rows == LedgerOps(old(rows), ops, source)
      ensures events == old(events) + EventsFor(old(rows), ops, source, fromVersion)
    {
      for i := 0 to |ops|
        invariant rows == LedgerOps(old(rows), ops[..i], source)
        invariant events == old(events) + EventsFor(old(rows), ops[..i], source, fromVersion)
      {
        assert ops[..i + 1][..i] == ops[..i];
        var op := ops[i];
        var previous := FindActive(rows, op.key);
        if previous.Some? {
          rows := Retire(rows, op.key, if op.kind.RemoveFact? then Rejected else Superseded);
        }
        if op.kind.SetFact? {
          rows := rows + [FactRow(FactOf(op, source), Active, previous)];
        }
        var kind :=
          if op.kind.SetFact? then (if previous.Some? then FactSuperseded else FactAdded) else FactRejected;
        events := events + [FactEvent(source, kind, op, fromVersion, fromVersion + 1)];
      }
      assert ops[..|ops|] == ops;
    }

    /** The reply and the snapshot, up to the first key that is taken; then the version guard. */
    method WriteReply(t: TurnId, turn: Turn, next: Requirements) returns (error: Option<TurnError>)
      requires turn.Loaded?
      modifies `snapshots, `messages
      ensures error == old(Obstacle(turn))
      ensures error.None? ==> messages == old(messages)[turn.user + 1 := Message(Assistant, Completed, t)]
      ensures error.None? ==> snapshots == old(snapshots)[turn.version + 1 := next]
    {
      if turn.user + 1 in messages { return Some(SequenceTaken); }
      messages := messages[turn.user + 1 := Message(Assistant, Completed, t)];
      if turn.version + 1 in snapshots { return Some(SnapshotTaken); }
      snapshots := snapshots[turn.version + 1 := next];
      error := if version != turn.version then Some(SessionConflict) else None;
    }

    /** What the transaction of a turn runs into first. */
    function Obstacle(turn: Turn): Option<TurnError>
      requires turn.Loaded?
      reads this
    {
      if turn.user + 1 in messages then Some(SequenceTaken)
      else if turn.version + 1 in snapshots then Some(SnapshotTaken)
      else if turn.version != version then Some(SessionConflict)
      else None
    }

    /** The rows of the transaction: all of them, or after an error none. */
    method WriteOutcome(t: TurnId, turn: Turn, outcome: Outcome, next: Requirements)
      returns (error: Option<TurnError>)
      requires turn.Loaded?
      modifies `rows, `events, `snapshots, `messages
      ensures error == old(Obstacle(turn))
      ensures error.Some? ==> rows == old(rows) && events == old(events)
      ensures error.Some? ==> snapshots == old(snapshots) && messages == old(messages)
      ensures error.None? ==> rows == LedgerOps(old(rows), outcome.operations, turn.user)
      ensures error.None? ==>
                events == old(events) + EventsFor(old(rows), outcome.operations, turn.user, turn.version)
      ensures error.None? ==> messages == old(messages)[turn.user + 1 := Message(Assistant, Completed, t)]
      ensures error.None? ==> snapshots == old(snapshots)[turn.version + 1 := next]
    {
      var savedRows, savedEvents, savedSnapshots, savedMessages := rows, events, snapshots, messages;
      WriteBatch(outcome.operations, turn.user, turn.version);
      error := WriteReply(t, turn, next);
      if error.Some? {
        rows, events, snapshots, messages := savedRows, savedEvents, savedSnapshots, savedMessages;
      }
    }

    /** Writes the batch, the reply, the snapshot and the cached state, or rolls all of it back. */
    method PersistDiscovery(t: TurnId, outcome: Outcome) returns (r: Result<nat, TurnError>)
      requires t in turns && turns[t].Loaded?
      modifies `version, `requirements, `rows, `events, `snapshots, `messages, `turns
      ensures View() == Step(old(View()), Persist(t, outcome), ranks)
      ensures r == if old(turns[t].user) + 1 in old(messages) then Err(SequenceTaken)
                   else if old(turns[t].version) + 1 in old(snapshots) then Err(SnapshotTaken)
                   else if old(turns[t].version) != old(version) then Err(SessionConflict)
                   else Ok(old(version) + 1)
    {
      var turn := turns[t];
      var nextVersion := turn.version + 1;
      var nextFacts := ApplyOutcomeToFacts(turn.facts, outcome.operations, turn.user, ranks.runtime);
      var nextRequirements := Requirements(nextFacts, outcome.unresolved, outcome.assumptions);
      var error := WriteOutcome(t, turn, outcome, nextRequirements);
      if error.Some? {
        turns := turns[t := Failing(turn.user)];
        return Err(error.value);
      }
      version, requirements := nextVersion, nextRequirements;
      turns := turns[t := if outcome.wantsPlan then Planning(nextVersion, turn.user) else Finished(turn.user)];
      r := Ok(nextVersion);
    }

    /** Retires older plans and files the new one under the version it was drawn from. */
    method PersistPlan(t: TurnId)
      requires t in turns && turns[t].Planning?
      modifies `plans, `turns
      ensures View() == Step(old(View()), StorePlan(t), ranks)
    {
      plans := MakeStale(plans) + [Plan(turns[t].version, |plans| + 1, false)];
      turns := turns[t := Finished(turns[t].user)];
    }

    method FailTurn(t: TurnId)
      requires t in turns && (turns[t].Reserved? || turns[t].Loaded? || turns[t].Planning?)
      modifies `turns
      ensures View() == Step(old(View()), Throw(t), ranks)
    {
      turns := turns[t := Failing(turns[t].user)];
    }

    /** Inserts or overwrites the assistant row, so a reserved number is never a silent gap. */
    method MarkTurnFailed(t: TurnId)
      requires t in turns && turns[t].Failing?
      modifies `messages, `turns
      ensures View() == Step(old(View()), MarkFailed(t), ranks)
    {
      messages := messages[turns[t].user + 1 := Message(Assistant, Failed, t)];
      turns := turns[t := FailedTurn(turns[t].user)];
    }

    method FailAndMark(t: TurnId)
      requires t in turns && (turns[t].Reserved? || turns[t].Loaded? || turns[t].Planning?)
      modifies `messages, `turns
      ensures View() == Abandoned(old(View()), t, ranks)
    {
      FailTurn(t);
      MarkTurnFailed(t);
    }

    /** Everything before the model is asked; `ok` is false when the slots were lost. */
    method BeginTurn(t: TurnId) returns (ok: bool)
      requires t !in turns
      modifies `latest, `messages, `turns, `reservations
      ensures View() == TurnLoaded(old(View()), t, ranks)
      ensures t in turns && (if ok then turns[t].Loaded? else turns[t].Refused?)
    {
      OpenTurn(t);
      var user := ReserveTurn(t);
      if user.Err? { return false; }
      LoadFacts(t);
      ok := true;
    }

    /** The plan of a committed turn; `planned` is false when none could be made. */
    method PlanTurn(t: TurnId, planned: bool) returns (ok: bool)
      requires t in turns && turns[t].Planning?
      modifies `plans, `messages, `turns
      ensures View() == Settled(old(View()), t, planned, ranks)
      ensures t in turns && (if ok then turns[t].Finished? else turns[t].FailedTurn?)
    {
      if planned {
        PersistPlan(t);
      } else {
        FailAndMark(t);
      }
      ok := planned;
    }

    /** Everything after the model has answered. */
    method ConcludeTurn(t: TurnId, outcome: Outcome, planned: bool) returns (ok: bool)
      requires t in turns && turns[t].Loaded?
      modifies this
      ensures View() == TurnConcluded(old(View()), t, outcome, planned, ranks)
      ensures ok <==> t in turns && turns[t].Finished?
    {
      PersistedTurn(View(), t, outcome, ranks);
      var stored := PersistDiscovery(t, outcome);
      if stored.Err? {
        SettledTurns(View(), t, planned, ranks);
        MarkTurnFailed(t);
        return false;
      }
      ok := true;
      if outcome.wantsPlan {
        ok := PlanTurn(t, planned);
      } else {
        SettledTurns(View(), t, planned, ranks);
      }
    }

    /** One whole turn in a quiet moment; `outcome` is absent when the model call fails. */
    method ProcessBuilderTurn(t: TurnId, outcome: Option<Outcome>, planned: bool) returns (ok: bool)
      requires t !in turns
      modifies this
      ensures View() == TurnAlone(old(View()), t, outcome, planned, ranks)
      ensures ok <==> t in turns && turns[t].Finished?
    {
      ok := BeginTurn(t);
      if ok {
        if outcome.None? {
          FailAndMark(t);
          ok := false;
        } else {
          ok := ConcludeTurn(t, outcome.value, planned);
        }
      }
    }
  }

  function TurnLoaded(s: State, t: TurnId, ranks: Ranks): State {
    Step(Step(Step(s, Open(t), ranks), Claim(t), ranks), Load(t), ranks)
  }

  function Abandoned(s: State, t: TurnId, ranks: Ranks): State {
    Step(Step(s, Throw(t), ranks), MarkFailed(t), ranks)
  }

  function TurnConcluded(s: State, t: TurnId, outcome: Outcome, planned: bool, ranks: Ranks): State {
    Settled(Step(s, Persist(t, outcome), ranks), t, planned, ranks)
  }

  function Settled(s: State, t: TurnId, planned: bool, ranks: Ranks): State {
    if t in s.turns && s.turns[t].Planning? && planned then Step(s, StorePlan(t), ranks) else Abandoned(s, t, ranks)
  }

  lemma PersistedTurn(s: State, t: TurnId, o: Outcome, ranks: Ranks)
    requires t in s.turns && s.turns[t].Loaded?
    ensures var turn, turns := s.turns[t], Step(s, Persist(t, o), ranks).turns;
            t in turns
            && turns[t] == if !CanPersist(s, turn) then Failing(turn.user)
                           else if o.wantsPlan then Planning(turn.version + 1, turn.user) else Finished(turn.user)
  {
  }

  lemma SettledTurns(s: State, t: TurnId, planned: bool, ranks: Ranks)
    requires t in s.turns
    ensures s.turns[t].Failing? ==> Settled(s, t, planned, ranks) == Step(s, MarkFailed(t), ranks)
    ensures s.turns[t].Finished? ==> Settled(s, t, planned, ranks) == s
  {
  }

  /** The steps of a turn that runs start to end with nothing in between. */
  function TurnAlone(s: State, t: TurnId, outcome: Option<Outcome>, planned: bool, ranks: Ranks): State {
    var loaded := TurnLoaded(s, t, ranks);
    if t !in loaded.turns || loaded.turns[t].Refused? then loaded
    else if outcome.None? then Abandoned(loaded, t, ranks)
    else TurnConcluded(loaded, t, outcome.value, planned, ranks)
  }

  lemma TurnLoadedShape(s: State, t: TurnId, ranks: Ranks)
    requires t !in s.turns && s.latest + 1 !in s.messages
    ensures var s' := TurnLoaded(s, t, ranks);
            var facts := Sort(FactOrder(ranks.database), ActiveFacts(s.rows));
            s' == s.(latest := s.latest + 2,
                     messages := s.messages[s.latest + 1 := Message(User, Completed, t)],
                     turns := s.turns[t := Loaded(s.version, s.latest + 1, facts)],
                     reservations := s.reservations + [t])
  {
  }

  lemma AbandonedShape(s: State, t: TurnId, ranks: Ranks)
    requires t in s.turns
    ensures Abandoned(s, t, ranks)
            == if s.turns[t].Reserved? || s.turns[t].Loaded? || s.turns[t].Planning? || s.turns[t].Failing?
               then s.(turns := s.turns[t := FailedTurn(s.turns[t].user)],
                       messages := s.messages[s.turns[t].user + 1 := Message(Assistant, Failed, t)])
               else s
  {
  }

  ghost predicate Concluded(s: State, t: TurnId, user: nat, o: Outcome, planned: bool, s': State) {
    var ok := o.wantsPlan ==> planned;
    && s'.version == s.version + 1
    && s'.rows == LedgerOps(s.rows, o.operations, user)
    && s'.latest == s.latest
    && s'.messages == s.messages[user + 1 := Message(Assistant, if ok then Completed else Failed, t)]
    && s'.turns == s.turns[t := if ok then Finished(user) else FailedTurn(user)]
    && s'.plans == (if o.wantsPlan && planned
                    then MakeStale(s.plans) + [Plan(s.version + 1, |s.plans| + 1, false)] else s.plans)
  }

  lemma TurnConcludedShape(s: State, t: TurnId, o: Outcome, planned: bool, ranks: Ranks)
    requires t in s.turns && s.turns[t].Loaded? && CanPersist(s, s.turns[t])
    ensures Concluded(s, t, s.turns[t].user, o, planned, TurnConcluded(s, t, o, planned, ranks))
  {
    var turn, stored := s.turns[t], Step(s, Persist(t, o), ranks);
    assert stored.turns[t] == if o.wantsPlan then Planning(s.version + 1, turn.user) else Finished(turn.user);
    SettledShape(stored, t, s.version + 1, planned, ranks);
  }

  lemma SettledShape(s: State, t: TurnId, version: nat, planned: bool, ranks: Ranks)
    requires t in s.turns && (s.turns[t].Finished? || (s.turns[t].Planning? && s.turns[t].version == version))
    ensures var turn := s.turns[t];
            Settled(s, t, planned, ranks)
            == if turn.Finished? then s
               else if planned
               then s.(plans := MakeStale(s.plans) + [Plan(version, |s.plans| + 1, false)],
                       turns := s.turns[t := Finished(turn.user)])
               else s.(turns := s.turns[t := FailedTurn(turn.user)],
                       messages := s.messages[turn.user + 1 := Message(Assistant, Failed, t)])
  {
    AbandonedShape(s, t, ranks);
  }

  /** The steps of a quiet turn, as a run. */
  lemma {:induction false} TurnAloneIsConsistent(s: State, t: TurnId, outcome: Option<Outcome>, planned: bool,
                                            ranks: Ranks)
    requires Consistent(s)
    ensures Consistent(TurnAlone(s, t, outcome, planned, ranks))
  {
    var loaded := TurnLoaded(s, t, ranks);
    LoadedIsConsistent(s, t, ranks);
    AbandonedIsConsistent(loaded, t, ranks);
    if outcome.Some? { ConcludedIsConsistent(loaded, t, outcome.value, planned, ranks); }
  }

  lemma LoadedIsConsistent(s: State, t: TurnId, ranks: Ranks)
    requires Consistent(s)
    ensures Consistent(TurnLoaded(s, t, ranks))
  {
    StepKeepsConsistency(s, Open(t), ranks);
    StepKeepsConsistency(Step(s, Open(t), ranks), Claim(t), ranks);
    StepKeepsConsistency(Step(Step(s, Open(t), ranks), Claim(t), ranks), Load(t), ranks);
  }

  lemma ConcludedIsConsistent(s: State, t: TurnId, outcome: Outcome, planned: bool, ranks: Ranks)
    requires Consistent(s)
    ensures Consistent(TurnConcluded(s, t, outcome, planned, ranks))
  {
    var stored := Step(s, Persist(t, outcome), ranks);
    StepKeepsConsistency(s, Persist(t, outcome), ranks);
    StepKeepsConsistency(stored, StorePlan(t), ranks);
    AbandonedIsConsistent(stored, t, ranks);
  }

  lemma {:induction false} AbandonedIsConsistent(s: State, t: TurnId, ranks: Ranks)
    requires Consistent(s)
    ensures Consistent(Abandoned(s, t, ranks))
  {
    StepKeepsConsistency(s, Throw(t), ranks);
    StepKeepsConsistency(Step(s, Throw(t), ranks), MarkFailed(t), ranks);
  }

  ghost predicate FreshSlots(s: State) {
    s.latest + 1 !in s.messages && s.latest + 2 !in s.messages && s.version + 1 !in s.snapshots && LedgerOk(s.rows)
  }

  /** Between turns the next numbers are always free. */
  lemma ConsistentMeansFresh(s: State)
    requires Consistent(s)
    ensures FreshSlots(s)
  {
  }

  /** When the model fails, a quiet turn leaves nothing behind but its two rows. */
  lemma FailedTurnAlone(s: State, t: TurnId, planned: bool, ranks: Ranks)
    requires t !in s.turns && FreshSlots(s)
    ensures TurnAlone(s, t, None, planned, ranks)
            == s.(latest := s.latest + 2,
                  messages := s.messages[s.latest + 1 := Message(User, Completed, t)]
                                        [s.latest + 2 := Message(Assistant, Failed, t)],
                  turns := s.turns[t := FailedTurn(s.latest + 1)],
                  reservations := s.reservations + [t])
  {
    TurnLoadedShape(s, t, ranks);
    var loaded := TurnLoaded(s, t, ranks);
    AbandonedShape(loaded, t, ranks);
    assert loaded.turns[t := FailedTurn(s.latest + 1)] == s.turns[t := FailedTurn(s.latest + 1)];
  }

  lemma LoadedAndConcluded(s: State, loaded: State, t: TurnId, o: Outcome, planned: bool, s': State)
    requires t in loaded.turns
    requires loaded == s.(latest := s.latest + 2,
                          messages := s.messages[s.latest + 1 := Message(User, Completed, t)],
                          turns := s.turns[t := loaded.turns[t]],
                          reservations := s.reservations + [t])
    requires Concluded(loaded, t, s.latest + 1, o, planned, s')
    ensures Committed(s, t, o, planned, s')
  {
  }

  /** The batch is in the facts, both slots are filled, and a plan is filed if one was drawn up. */
  ghost predicate Committed(s: State, t: TurnId, o: Outcome, planned: bool, s': State) {
    var ok := o.wantsPlan ==> planned;
    && s'.version == s.version + 1
    && s'.rows == LedgerOps(s.rows, o.operations, s.latest + 1)
    && s'.latest == s.latest + 2
    && s'.messages == s.messages[s.latest + 1 := Message(User, Completed, t)]
                                [s.latest + 2 := Message(Assistant, if ok then Completed else Failed, t)]
    && s'.turns == s.turns[t := if ok then Finished(s.latest + 1) else FailedTurn(s.latest + 1)]
    && s'.plans == (if o.wantsPlan && planned
                    then MakeStale(s.plans) + [Plan(s.version + 1, |s.plans| + 1, false)] else s.plans)
  }

  /** A turn nothing interferes with always commits what the model produced; a planner failure turns
      its reply into a failed row and keeps the facts. */
  lemma {:induction false} TurnAloneCommits(s: State, t: TurnId, o: Outcome, planned: bool, ranks: Ranks)
    requires t !in s.turns && FreshSlots(s)
    ensures Committed(s, t, o, planned, TurnAlone(s, t, Some(o), planned, ranks))
    ensures ActiveMap(TurnAlone(s, t, Some(o), planned, ranks).rows) ==
            ApplyOps(ActiveMap(s.rows), o.operations, s.latest + 1)
  {
    LedgerFollowsBatch(s.rows, o.operations, s.latest + 1);
    TurnAloneIsConcluded(s, t, o, planned, ranks);
    var loaded := TurnLoaded(s, t, ranks);
    TurnLoadedShape(s, t, ranks);
    LoadedAndConcluded(s, loaded, t, o, planned, TurnAlone(s, t, Some(o), planned, ranks));
  }

  lemma TurnAloneIsConcluded(s: State, t: TurnId, o: Outcome, planned: bool, ranks: Ranks)
    requires t !in s.turns && FreshSlots(s)
    ensures Concluded(TurnLoaded(s, t, ranks), t, s.latest + 1, o, planned, TurnAlone(s, t, Some(o), planned, ranks))
  {
    TurnLoadedShape(s, t, ranks);
    TurnConcludedShape(TurnLoaded(s, t, ranks), t, o, planned, ranks);
  }
}
