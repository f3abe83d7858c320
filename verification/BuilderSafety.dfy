/** What every interleaving of builder turns keeps. */
module BuilderSafety {
  import opened StableSort
  import opened BuilderLedger
  import opened BuilderTurns

  // ---------------------------------------------------------------- ledger, events, snapshots

  lemma LaterEventsKeepSnapshots(version: nat, requirements: Requirements, events: seq<Event>,
                                 snapshots: map<nat, Requirements>, more: seq<Event>)
    requires SnapshotsOk(version, requirements, events, snapshots)
    requires forall e :: e in more ==> e.Analytics? || e.toVersion > version
    ensures SnapshotsOk(version, requirements, events + more, snapshots)
  {
    forall v | v in snapshots ensures SnapshotOk(events + more, v, snapshots[v].facts) {
      UpToAppends(events, more, v);
      UpToIgnoresLater(more, v);
      assert UpTo(events + more, v) == UpTo(events, v);
      assert SnapshotOk(events, v, snapshots[v].facts);
    }
  }

  lemma EarlierEventsStayOk(version: nat, events: seq<Event>, more: seq<Event>, later: nat, i: nat)
    requires EventsOk(version, events) && version <= later && i < |events| && events[i].FactEvent?
    ensures EventOk(later, (events + more)[i], Replay((events + more)[..i]))
  {
    assert (events + more)[..i] == events[..i];
    assert EventOk(version, events[i], Replay(events[..i]));
  }

  lemma AnalyticsKeepLedger(s: State, v: nat)
    requires Consistent(s)
    ensures var events := s.events + [Analytics(v)];
            && Replay(events) == Replay(s.events)
            && SnapshotsOk(s.version, s.requirements, events, s.snapshots)
            && EventsOk(s.version, events)
  {
    var events := s.events + [Analytics(v)];
    ReplayAppends(s.events, [Analytics(v)]);
    LaterEventsKeepSnapshots(s.version, s.requirements, s.events, s.snapshots, [Analytics(v)]);
    forall i | 0 <= i < |events| && events[i].FactEvent? ensures EventOk(s.version, events[i], Replay(events[..i])) {
      EarlierEventsStayOk(s.version, s.events, [Analytics(v)], s.version, i);
    }
  }

  /** A commit moves ledger, cache and log together, by exactly what the batch means. */
  lemma CommitKeepsProjections(s: State, t: TurnId, turn: Turn, o: Outcome, ranks: Ranks)
    requires ProjectionsAgree(s) && turn.Loaded? && TurnOk(s.version, ActiveMap(s.rows), turn) && CanPersist(s, turn)
    ensures var s' := PersistStep(s, t, turn, o, ranks);
            && ProjectionsAgree(s')
            && ActiveMap(s'.rows) == ApplyOps(ActiveMap(s.rows), o.operations, turn.user)
  {
    LedgerFollowsBatch(s.rows, o.operations, turn.user);
    ReducerMatchesMap(turn.facts, o.operations, turn.user, ranks.runtime);
    BatchReplays(s.rows, s.events, o.operations, turn.user, turn.version);
  }

  lemma {:induction false} NewEventOk(rows: seq<FactRow>, events: seq<Event>, version: nat,
                                      ops: seq<Operation>, source: MessageId, i: nat)
    requires LedgerOk(rows) && Replay(events) == ActiveMap(rows) && i < |ops|
    ensures |EventsFor(rows, ops, source, version)| == |ops|
    ensures var all := events + EventsFor(rows, ops, source, version);
            all[|events| + i].FactEvent? && EventOk(version + 1, all[|events| + i], Replay(all[..|events| + i]))
  {
    EventsForShape(rows, ops, source, version);
    BatchEventsTellTheTruth(rows, events, ops, source, version, i);
    assert (events + EventsFor(rows, ops, source, version))[|events| + i] == EventsFor(rows, ops, source, version)[i];
  }

  lemma CommitKeepsEvents(rows: seq<FactRow>, events: seq<Event>, version: nat, ops: seq<Operation>, source: MessageId)
    requires LedgerOk(rows) && Replay(events) == ActiveMap(rows) && EventsOk(version, events)
    ensures EventsOk(version + 1, events + EventsFor(rows, ops, source, version))
  {
    var batch := EventsFor(rows, ops, source, version);
    var all := events + batch;
    EventsForShape(rows, ops, source, version);
    forall i | 0 <= i < |all| && all[i].FactEvent? ensures EventOk(version + 1, all[i], Replay(all[..i])) {
      if i < |events| {
        EarlierEventsStayOk(version, events, batch, version + 1, i);
      } else {
        NewEventOk(rows, events, version, ops, source, i - |events|);
      }
    }
  }

  lemma NewSnapshotOk(version: nat, previous: Requirements, events: seq<Event>, snapshots: map<nat, Requirements>,
                      more: seq<Event>, requirements: Requirements)
    requires SnapshotsOk(version, previous, events, snapshots)
    requires forall e :: e in more ==> e.FactEvent? && e.toVersion == version + 1
    requires forall e :: e in events ==> e.Analytics? || e.toVersion <= version
    requires DistinctKeys(requirements.facts) && MapOf(requirements.facts) == Replay(events + more)
    ensures SnapshotsOk(version + 1, requirements, events + more, snapshots[version + 1 := requirements])
  {
    LaterEventsKeepSnapshots(version, previous, events, snapshots, more);
    LastSnapshotOk(version + 1, events, more, requirements.facts);
    SnapshotAdded(version, events + more, snapshots, requirements);
  }

  lemma LastSnapshotOk(version: nat, events: seq<Event>, more: seq<Event>, facts: seq<Fact>)
    requires forall e :: e in more ==> e.FactEvent? && e.toVersion == version
    requires forall e :: e in events ==> e.Analytics? || e.toVersion <= version
    requires DistinctKeys(facts) && MapOf(facts) == Replay(events + more)
    ensures SnapshotOk(events + more, version, facts)
  {
    assert forall e :: e in events + more ==> e in events || e in more;
    ReplayUpToLast(events + more, version);
  }

  lemma SnapshotAdded(version: nat, events: seq<Event>, snapshots: map<nat, Requirements>, requirements: Requirements)
    requires forall v: nat :: v in snapshots <==> 1 <= v <= version
    requires forall v :: v in snapshots ==> SnapshotOk(events, v, snapshots[v].facts)
    requires SnapshotOk(events, version + 1, requirements.facts)
    ensures SnapshotsOk(version + 1, requirements, events, snapshots[version + 1 := requirements])
  {
  }

  lemma EventsAreUpTo(version: nat, events: seq<Event>)
    requires EventsOk(version, events)
    ensures forall e :: e in events ==> e.Analytics? || e.toVersion <= version
  {
    forall e | e in events ensures e.Analytics? || e.toVersion <= version {
      var i :| 0 <= i < |events| && events[i] == e;
      if e.FactEvent? { assert EventOk(version, events[i], Replay(events[..i])); }
    }
  }

  lemma BatchEventsAreNext(rows: seq<FactRow>, ops: seq<Operation>, source: MessageId, version: nat)
    ensures forall e :: e in EventsFor(rows, ops, source, version) ==> e.FactEvent? && e.toVersion == version + 1
  {
    EventsForShape(rows, ops, source, version);
  }

  lemma CommitKeepsSnapshots(version: nat, previous: Requirements, rows: seq<FactRow>, events: seq<Event>,
                             snapshots: map<nat, Requirements>, ops: seq<Operation>, source: MessageId,
                               next: Requirements)
    requires SnapshotsOk(version, previous, events, snapshots) && EventsOk(version, events)
    requires DistinctKeys(next.facts) && MapOf(next.facts) == Replay(events + EventsFor(rows, ops, source, version))
    ensures SnapshotsOk(version + 1, next, events + EventsFor(rows, ops, source, version),
            snapshots[version + 1 := next])
  {
    EventsAreUpTo(version, events);
    BatchEventsAreNext(rows, ops, source, version);
    NewSnapshotOk(version, previous, events, snapshots, EventsFor(rows, ops, source, version), next);
  }

  lemma BatchKeepsLogs(s: State, s': State, ops: seq<Operation>, source: MessageId)
    requires ProjectionsAgree(s) && ProjectionsAgree(s')
    requires SnapshotsOk(s.version, s.requirements, s.events, s.snapshots) && EventsOk(s.version, s.events)
    requires s'.version == s.version + 1 && s'.snapshots == s.snapshots[s'.version := s'.requirements]
    requires s'.events == s.events + EventsFor(s.rows, ops, source, s.version)
    ensures LedgerSideOk(s')
  {
    CommitKeepsEvents(s.rows, s.events, s.version, ops, source);
    CommitKeepsSnapshots(s.version, s.requirements, s.rows, s.events, s.snapshots, ops, source, s'.requirements);
  }

  lemma {:induction false} CommitKeepsLedger(s: State, t: TurnId, turn: Turn, o: Outcome, ranks: Ranks)
    requires ProjectionsAgree(s) && turn.Loaded? && TurnOk(s.version, ActiveMap(s.rows), turn) && CanPersist(s, turn)
    requires SnapshotsOk(s.version, s.requirements, s.events, s.snapshots) && EventsOk(s.version, s.events)
    ensures LedgerSideOk(PersistStep(s, t, turn, o, ranks))
  {
    CommitKeepsProjections(s, t, turn, o, ranks);
    BatchKeepsLogs(s, PersistStep(s, t, turn, o, ranks), o.operations, turn.user);
  }

  ghost predicate LedgerSideOk(s: State) {
    && ProjectionsAgree(s)
    && SnapshotsOk(s.version, s.requirements, s.events, s.snapshots)
    && EventsOk(s.version, s.events)
  }

  lemma {:induction false} StepKeepsLedger(s: State, a: Action, ranks: Ranks)
    requires Consistent(s)
    ensures LedgerSideOk(Step(s, a, ranks))
  {
    if a.RecordAnalytics? {
      AnalyticsKeepLedger(s, a.eventVersion);
    } else if a.Persist? && a.turn in s.turns && s.turns[a.turn].Loaded? && CanPersist(s, s.turns[a.turn]) {
      CommitKeepsLedger(s, a.turn, s.turns[a.turn], a.outcome, ranks);
    } else {
      OtherStepsKeepLedger(s, a, ranks);
    }
  }

  lemma OtherStepsKeepLedger(s: State, a: Action, ranks: Ranks)
    requires !a.RecordAnalytics?
    requires a.Persist? && a.turn in s.turns && s.turns[a.turn].Loaded? ==> !CanPersist(s, s.turns[a.turn])
    ensures var s' := Step(s, a, ranks);
            && s'.version == s.version && s'.requirements == s.requirements && s'.rows == s.rows
            && s'.events == s.events && s'.snapshots == s.snapshots
  {
  }

  // ---------------------------------------------------------------- turns, plans, slots, messages

  lemma LoadedTurnOk(s: State, turn: Turn, ranks: Ranks)
    requires OneActivePerKey(s.rows) && turn.Reserved? && turn.version <= s.version
    ensures TurnOk(s.version, ActiveMap(s.rows),
                   Loaded(turn.version, turn.user, Sort(FactOrder(ranks.database), ActiveFacts(s.rows))))
  {
    ActiveFactsListTheMap(s.rows);
    SortKeepsKeys(ranks.database, ActiveFacts(s.rows));
  }

  lemma StepKeepsTurns(s: State, a: Action, ranks: Ranks)
    requires OneActivePerKey(s.rows) && TurnsOk(s.version, ActiveMap(s.rows), s.turns)
    ensures var s' := Step(s, a, ranks); TurnsOk(s'.version, ActiveMap(s'.rows), s'.turns)
  {
    var s' := Step(s, a, ranks);
    if a.Load? && a.turn in s.turns && s.turns[a.turn].Reserved? {
      LoadedTurnOk(s, s.turns[a.turn], ranks);
    } else {
      assert s'.version == s.version ==> s'.rows == s.rows;
      assert forall t :: t in s.turns ==> TurnOk(s.version, ActiveMap(s.rows), s.turns[t]);
    }
  }

  lemma StepKeepsPlans(s: State, a: Action, ranks: Ranks)
    requires PlansOk(s.version, s.plans) && TurnsOk(s.version, ActiveMap(s.rows), s.turns)
    ensures var s' := Step(s, a, ranks); PlansOk(s'.version, s'.plans)
  {
  }

  /** A turn keeps its slots for good, and only a successful claim hands out new ones. */
  lemma StepKeepsReservations(s: State, a: Action, ranks: Ranks)
    ensures var s' := Step(s, a, ranks);
            && (forall t :: t in s.turns && HasSlots(s.turns[t]) ==>
                  t in s'.turns && HasSlots(s'.turns[t]) && s'.turns[t].user == s.turns[t].user)
            && (if s'.reservations == s.reservations
                then s'.latest == s.latest
                     && forall t :: t in s'.turns && HasSlots(s'.turns[t]) ==> t in s.turns && HasSlots(s.turns[t])
                else a.Claim? && a.turn in s.turns && !HasSlots(s.turns[a.turn])
                     && s'.reservations == s.reservations + [a.turn] && s'.latest == s.latest + 2
                     && s.latest + 1 !in s.messages
                     && s'.messages == s.messages[s.latest + 1 := Message(User, Completed, a.turn)]
                     && s'.turns == s.turns[a.turn := Reserved(s.turns[a.turn].version, s.latest + 1)])
  {
  }

  lemma StepKeepsSlots(s: State, a: Action, ranks: Ranks)
    requires SlotsOk(s.latest, s.reservations, s.turns)
    ensures var s' := Step(s, a, ranks); SlotsOk(s'.latest, s'.reservations, s'.turns)
  {
    var s' := Step(s, a, ranks);
    StepKeepsReservations(s, a, ranks);
    forall t | t in s'.turns && HasSlots(s'.turns[t]) ensures SlotOk(s'.reservations, t, s'.turns[t].user) {
      if t in s.turns && HasSlots(s.turns[t]) { assert SlotOk(s.reservations, t, s.turns[t].user); }
    }
  }

  lemma SlotsDiffer(s: State, t: TurnId, u: TurnId)
    requires SlotsOk(s.latest, s.reservations, s.turns)
    requires t != u && t in s.turns && u in s.turns && HasSlots(s.turns[t]) && HasSlots(s.turns[u])
    ensures s.turns[t].user != s.turns[u].user
    ensures s.turns[t].user + 1 != s.turns[u].user && s.turns[t].user != s.turns[u].user + 1
  {
  }

  /** A step writes no message outside its own turn's slots. */
  lemma StepWritesOwnSlots(s: State, a: Action, ranks: Ranks, n: nat)
    ensures var s' := Step(s, a, ranks);
            (n in s'.messages) != (n in s.messages) || (n in s.messages && s'.messages[n] != s.messages[n]) ==>
              && !a.RecordAnalytics? && a.turn in s'.turns && HasSlots(s'.turns[a.turn])
              && n in s'.messages && s'.messages[n].writer == a.turn
              && (n == s'.turns[a.turn].user || n == s'.turns[a.turn].user + 1)
  {
  }

  lemma OtherTurnsStay(s: State, a: Action, ranks: Ranks, t: TurnId)
    requires t in s.turns && (a.RecordAnalytics? || a.turn != t)
    ensures var s' := Step(s, a, ranks); t in s'.turns && s'.turns[t] == s.turns[t]
  {
  }

  lemma OtherTurnsKeepRows(s: State, a: Action, ranks: Ranks, t: TurnId)
    requires SlotsOk(s.latest, s.reservations, s.turns)
    requires t in s.turns && HasSlots(s.turns[t]) && SlotRowsOk(s.messages, t, s.turns[t])
    requires a.RecordAnalytics? || a.turn != t
    ensures var s' := Step(s, a, ranks);
            t in s'.turns && s'.turns[t] == s.turns[t] && SlotRowsOk(s'.messages, t, s.turns[t])
  {
    var s' := Step(s, a, ranks);
    OtherTurnsStay(s, a, ranks, t);
    assert SlotsOk(s'.latest, s'.reservations, s'.turns) by { StepKeepsSlots(s, a, ranks); }
    StepWritesOwnSlots(s, a, ranks, s.turns[t].user);
    StepWritesOwnSlots(s, a, ranks, s.turns[t].user + 1);
    if !a.RecordAnalytics? && a.turn in s'.turns && HasSlots(s'.turns[a.turn]) {
      SlotsDiffer(s', t, a.turn);
    }
  }

  lemma OwnRowsStayOk(s: State, a: Action, ranks: Ranks)
    requires !a.RecordAnalytics? && a.turn in s.turns && HasSlots(s.turns[a.turn])
    requires SlotRowsOk(s.messages, a.turn, s.turns[a.turn])
    ensures var s' := Step(s, a, ranks); SlotRowsOk(s'.messages, a.turn, s'.turns[a.turn])
  {
  }

  lemma {:induction false} StepKeepsMessages(s: State, a: Action, ranks: Ranks)
    requires SlotsOk(s.latest, s.reservations, s.turns) && MessagesOk(s.latest, s.messages, s.turns)
    ensures var s' := Step(s, a, ranks); MessagesOk(s'.latest, s'.messages, s'.turns)
  {
    var s' := Step(s, a, ranks);
    StepKeepsReservations(s, a, ranks);
    StepKeepsSlots(s, a, ranks);
    forall n | n in s'.messages ensures 1 <= n <= s'.latest {
      StepWritesOwnSlots(s, a, ranks, n);
      if n !in s.messages { assert SlotOk(s'.reservations, a.turn, s'.turns[a.turn].user); }
    }
    forall t | t in s'.turns && HasSlots(s'.turns[t]) ensures SlotRowsOk(s'.messages, t, s'.turns[t]) {
      if t in s.turns && HasSlots(s.turns[t]) {
        assert SlotRowsOk(s.messages, t, s.turns[t]);
        if a.RecordAnalytics? || a.turn != t {
          OtherTurnsKeepRows(s, a, ranks, t);
        } else {
          OwnRowsStayOk(s, a, ranks);
        }
      } else {
        assert s.latest + 2 !in s.messages;
      }
    }
  }

  // ---------------------------------------------------------------- every run

  lemma {:induction false} StepKeepsConsistency(s: State, a: Action, ranks: Ranks)
    requires Consistent(s)
    ensures Consistent(Step(s, a, ranks))
  {
    StepKeepsLedger(s, a, ranks);
    StepKeepsTurns(s, a, ranks);
    StepKeepsPlans(s, a, ranks);
    StepKeepsSlots(s, a, ranks);
    StepKeepsMessages(s, a, ranks);
  }

  /** Every interleaving, of any number of turns, from the empty conversation. */
  lemma {:induction false} EveryRunIsConsistent(actions: seq<Action>, ranks: Ranks)
    ensures Consistent(Run(EMPTY, actions, ranks))
  {
    if actions != [] {
      EveryRunIsConsistent(actions[..|actions| - 1], ranks);
      StepKeepsConsistency(Run(EMPTY, actions[..|actions| - 1], ranks), actions[|actions| - 1], ranks);
    }
  }

  /** The ledger, the cached list and the log never drift apart, and every version that was ever
      current can be read back from its snapshot or rebuilt from the log. */
  lemma {:induction false} CacheLedgerAndLogAgree(actions: seq<Action>, ranks: Ranks)
    ensures var s := Run(EMPTY, actions, ranks);
            && DistinctKeys(s.requirements.facts)
            && MapOf(s.requirements.facts) == ActiveMap(s.rows) == Replay(s.events)
            && (forall v: nat :: v in s.snapshots <==> 1 <= v <= s.version)
            && (forall v :: v in s.snapshots ==> SnapshotOk(s.events, v, s.snapshots[v].facts))
            && (s.version >= 1 ==> s.snapshots[s.version] == s.requirements)
  {
    EveryRunIsConsistent(actions, ranks);
  }

  /** No update is lost: an outcome is only ever applied to the very facts it was decided on. */
  lemma CommitsSeeCurrentFacts(s: State, t: TurnId, o: Outcome, ranks: Ranks)
    requires Consistent(s) && t in s.turns && s.turns[t].Loaded?
    ensures var turn, s' := s.turns[t], Step(s, Persist(t, o), ranks);
            if s'.version != s.version then
              && s'.version == s.version + 1
              && MapOf(turn.facts) == ActiveMap(s.rows)
              && ActiveMap(s'.rows) == ApplyOps(MapOf(turn.facts), o.operations, turn.user)
            else
              s' == s.(turns := s.turns[t := Failing(turn.user)])
    ensures Step(s, Persist(t, o), ranks).version != s.version <==> s.turns[t].version == s.version
  {
    var turn := s.turns[t];
    assert TurnOk(s.version, ActiveMap(s.rows), turn) && SlotRowsOk(s.messages, t, turn);
    if CanPersist(s, turn) { CommitKeepsProjections(s, t, turn, o, ranks); }
  }

  /** A turn that fell behind always finds its snapshot number taken, so the database's unique key
      stops it before the version guard gets to report a conflict. */
  lemma StaleTurnsMeetTheSnapshotKey(s: State, t: TurnId)
    requires Consistent(s) && t in s.turns && s.turns[t].Loaded?
    ensures s.turns[t].user + 1 !in s.messages
    ensures s.turns[t].version != s.version <==> s.turns[t].version + 1 in s.snapshots
  {
  }

  predicate Unended(turn: Turn) {
    turn.Reserved? || turn.Loaded? || turn.Failing? || turn.Vanished?
  }

  ghost predicate SlotHasOneOwner(s: State, n: nat) {
    && (n in s.messages ==> 1 <= n <= s.latest)
    && (1 <= n <= s.latest ==>
          && (n - 1) / 2 < |s.reservations|
          && var owner := s.reservations[(n - 1) / 2];
          && owner in s.turns
          && (n in s.messages ==> s.messages[n].writer == owner && (s.messages[n].role.User? <==> n % 2 == 1))
          && (n !in s.messages ==> n % 2 == 0 && Unended(s.turns[owner])))
  }

  lemma SlotOwner(s: State, n: nat)
    requires SlotsOk(s.latest, s.reservations, s.turns) && MessagesOk(s.latest, s.messages, s.turns)
    ensures SlotHasOneOwner(s, n)
  {
  }

  /** Number n belongs to reservation (n - 1) / 2, only that turn ever writes it, and it is filled
      unless it is the assistant slot of a turn that has not come to an end. */
  lemma SlotsHaveOneOwner(actions: seq<Action>, ranks: Ranks, n: nat)
    ensures SlotHasOneOwner(Run(EMPTY, actions, ranks), n)
  {
    EveryRunIsConsistent(actions, ranks);
    SlotOwner(Run(EMPTY, actions, ranks), n);
  }

  /** Once every turn has ended, the numbers 1 to latest are all there, failed turns included. */
  lemma NoGapsWhenIdle(actions: seq<Action>, ranks: Ranks)
    requires var s := Run(EMPTY, actions, ranks); forall t :: t in s.turns ==> !Unended(s.turns[t])
    ensures var s := Run(EMPTY, actions, ranks); forall n: nat :: n in s.messages <==> 1 <= n <= s.latest
  {
    forall n: nat ensures var s := Run(EMPTY, actions, ranks); n in s.messages <==> 1 <= n <= s.latest {
      SlotsHaveOneOwner(actions, ranks, n);
    }
  }

  /** Two turns never hold the same slot. */
  lemma {:induction false} SlotsAreNotShared(actions: seq<Action>, ranks: Ranks, t: TurnId, u: TurnId)
    requires var s := Run(EMPTY, actions, ranks);
             t != u && t in s.turns && u in s.turns && HasSlots(s.turns[t]) && HasSlots(s.turns[u])
    ensures var s := Run(EMPTY, actions, ranks);
            {s.turns[t].user, s.turns[t].user + 1} !! {s.turns[u].user, s.turns[u].user + 1}
  {
    EveryRunIsConsistent(actions, ranks);
    SlotsDiffer(Run(EMPTY, actions, ranks), t, u);
  }
}
