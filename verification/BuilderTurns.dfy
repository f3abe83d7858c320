/** Concurrent turns of one builder conversation, as atomic steps over the conversation's rows.
    No lock is assumed: any number of turns interleave freely, and any of them may fail or vanish. */
module BuilderTurns {
  import opened StableSort
  import opened BuilderLedger

  type TurnId = nat

  /** The part of a discovery outcome that is stored. Everything in it is arbitrary. */
  datatype Outcome = Outcome(operations: seq<Operation>, unresolved: seq<string>, assumptions: seq<string>,
                             wantsPlan: bool)

  datatype Requirements = Requirements(facts: seq<Fact>, unresolved: seq<string>, assumptions: seq<string>)

  datatype Role = User | Assistant

  datatype MessageStatus = Completed | Failed

  /** `writer` is the turn that wrote the row last. */
  datatype Message = Message(role: Role, status: MessageStatus, writer: TurnId)

  datatype EventKind = FactAdded | FactSuperseded | FactRejected

  datatype Event =
    | FactEvent(message: MessageId, kind: EventKind, op: Operation, fromVersion: nat, toVersion: nat)
    | Analytics(version: nat)

  datatype Plan = Plan(requirementsVersion: nat, planVersion: nat, stale: bool)

  /** How far a turn has come. `user` is the reserved user slot; `user + 1` is the assistant's. */
  datatype Turn =
    | Opened(version: nat, latest: nat)              // session row read, nothing reserved
    | Refused                                        // another turn took the slots
    | Reserved(version: nat, user: nat)
    | Loaded(version: nat, user: nat, facts: seq<Fact>)
    | Planning(version: nat, user: nat)              // outcome committed at `version`, plan not yet stored
    | Failing(user: nat)                             // an error was thrown, the failed row is not yet written
    | Finished(user: nat)
    | FailedTurn(user: nat)
    | Vanished(user: nat)                            // the process died or the failed row could not be stored

  predicate HasSlots(turn: Turn) {
    !turn.Opened? && !turn.Refused?
  }

  /** `reservations` remembers who reserved which slots: the k-th reservation is slots 2k+1 and 2k+2. */
  datatype State = State(
    version: nat,
    latest: nat,
    requirements: Requirements,
    rows: seq<FactRow>,
    events: seq<Event>,
    snapshots: map<nat, Requirements>,
    messages: map<nat, Message>,
    plans: seq<Plan>,
    turns: map<TurnId, Turn>,
    reservations: seq<TurnId>)

  const EMPTY := State(0, 0, Requirements([], [], []), [], [], map[], map[], [], map[], [])

  datatype Action =
    | Open(turn: TurnId)
    | Claim(turn: TurnId)
    | Load(turn: TurnId)
    | Persist(turn: TurnId, outcome: Outcome)
    | StorePlan(turn: TurnId)
    | Throw(turn: TurnId)
    | MarkFailed(turn: TurnId)
    | Vanish(turn: TurnId)
    | RecordAnalytics(eventVersion: nat)

  // ---------------------------------------------------------------- events

  function EventFor(rows: seq<FactRow>, op: Operation, source: MessageId, from: nat): Event {
    var kind :=
      if op.kind.RemoveFact? then FactRejected
      else if FindActive(rows, op.key).Some? then FactSuperseded
      else FactAdded;
    FactEvent(source, kind, op, from, from + 1)
  }

  function EventsFor(rows: seq<FactRow>, ops: seq<Operation>, source: MessageId, from: nat): seq<Event> {
    if ops == [] then []
    else
      var init := ops[..|ops| - 1];
      EventsFor(rows, init, source, from)
      + [EventFor(LedgerOps(rows, init, source), ops[|ops| - 1], source, from)]
  }

  /** The facts as rebuilt from nothing but the event log. */
  function Replay(events: seq<Event>): FactMap {
    if events == [] then map[]
    else
      var earlier, last := Replay(events[..|events| - 1]), events[|events| - 1];
      if last.FactEvent? then ApplyOp(earlier, last.op, last.message) else earlier
  }

  /** The fact events that lead up to a version. */
  function UpTo(events: seq<Event>, version: nat): seq<Event> {
    if events == [] then []
    else
      var earlier, last := UpTo(events[..|events| - 1], version), events[|events| - 1];
      if last.FactEvent? && last.toVersion <= version then earlier + [last] else earlier
  }

  // ---------------------------------------------------------------- the steps

  function ActiveFacts(rows: seq<FactRow>): seq<Fact> {
    if rows == [] then []
    else
      var last := rows[|rows| - 1];
      ActiveFacts(rows[..|rows| - 1]) + (if last.status.Active? then [last.fact] else [])
  }

  /** The database's and the runtime's collation need not agree. */
  datatype Ranks = Ranks(database: Collation, runtime: Collation)

  predicate CanPersist(s: State, turn: Turn)
    requires turn.Loaded?
  {
    turn.user + 1 !in s.messages && turn.version + 1 !in s.snapshots && turn.version == s.version
  }

  function PersistStep(s: State, t: TurnId, turn: Turn, outcome: Outcome, ranks: Ranks): State
    requires turn.Loaded?
  {
    if !CanPersist(s, turn) then s.(turns := s.turns[t := Failing(turn.user)])
    else
      var next := turn.version + 1;
      var requirements := Requirements(ApplyOutcome(turn.facts, outcome.operations, turn.user, ranks.runtime),
                                       outcome.unresolved, outcome.assumptions);
      s.(version := next,
         requirements := requirements,
         rows := LedgerOps(s.rows, outcome.operations, turn.user),
         events := s.events + EventsFor(s.rows, outcome.operations, turn.user, turn.version),
         snapshots := s.snapshots[next := requirements],
         messages := s.messages[turn.user + 1 := Message(Assistant, Completed, t)],
         turns := s.turns[t := if outcome.wantsPlan then Planning(next, turn.user) else Finished(turn.user)])
  }

  function MakeStale(plans: seq<Plan>): seq<Plan> {
    seq(|plans|, i requires 0 <= i < |plans| => plans[i].(stale := true))
  }

  /** One step of some turn; a step the turn is not at changes nothing. */
  function Step(s: State, a: Action, ranks: Ranks): State {
    match a
    case RecordAnalytics(v) => s.(events := s.events + [Analytics(v)])
    case Open(t) =>
      if t in s.turns then s else s.(turns := s.turns[t := Opened(s.version, s.latest)])
    case _ =>
      if a.turn !in s.turns then s else TurnStep(s, a, a.turn, s.turns[a.turn], ranks)
  }

  function TurnStep(s: State, a: Action, t: TurnId, turn: Turn, ranks: Ranks): State {
    match a
    case Claim(_) =>
      if !turn.Opened? then s
      else if s.latest != turn.latest || turn.latest + 1 in s.messages then s.(turns := s.turns[t := Refused])
      else
        s.(latest := turn.latest + 2,
           messages := s.messages[turn.latest + 1 := Message(User, Completed, t)],
           turns := s.turns[t := Reserved(turn.version, turn.latest + 1)],
           reservations := s.reservations + [t])
    case Load(_) =>
      if !turn.Reserved? then s
      else
        s.(turns := s.turns[t := Loaded(turn.version, turn.user, Sort(FactOrder(ranks.database), ActiveFacts(s.rows)))])
    case Persist(_, outcome) =>
      if !turn.Loaded? then s else PersistStep(s, t, turn, outcome, ranks)
    case StorePlan(_) =>
      if !turn.Planning? then s
      else
        s.(plans := MakeStale(s.plans) + [Plan(turn.version, |s.plans| + 1, false)],
           turns := s.turns[t := Finished(turn.user)])
    case Throw(_) =>
      if turn.Reserved? || turn.Loaded? || turn.Planning? then s.(turns := s.turns[t := Failing(turn.user)]) else s
    case MarkFailed(_) =>
      if !turn.Failing? then s
      else
        s.(messages := s.messages[turn.user + 1 := Message(Assistant, Failed, t)],
           turns := s.turns[t := FailedTurn(turn.user)])
    case Vanish(_) =>
      if turn.Reserved? || turn.Loaded? || turn.Planning? || turn.Failing?
      then s.(turns := s.turns[t := Vanished(turn.user)]) else s
    case _ => s
  }

  function Run(s: State, actions: seq<Action>, ranks: Ranks): State {
    if actions == [] then s
    else Step(Run(s, actions[..|actions| - 1], ranks), actions[|actions| - 1], ranks)
  }

  // ---------------------------------------------------------------- invariants

  /** Ledger, cache and event log tell the same story, at every version. */
  ghost predicate ProjectionsAgree(s: State) {
    && LedgerOk(s.rows)
    && DistinctKeys(s.requirements.facts)
    && MapOf(s.requirements.facts) == ActiveMap(s.rows)
    && Replay(s.events) == ActiveMap(s.rows)
  }

  ghost predicate SnapshotsOk(version: nat, requirements: Requirements, events: seq<Event>, snapshots: map<nat,
                              Requirements>) {
    && (forall v: nat :: v in snapshots <==> 1 <= v <= version)
    && (forall v :: v in snapshots ==> SnapshotOk(events, v, snapshots[v].facts))
    && (version >= 1 ==> snapshots[version] == requirements)
  }

  ghost predicate SnapshotOk(events: seq<Event>, version: nat, facts: seq<Fact>) {
    DistinctKeys(facts) && MapOf(facts) == Replay(UpTo(events, version))
  }

  ghost predicate EventsOk(version: nat, events: seq<Event>) {
    forall i :: 0 <= i < |events| && events[i].FactEvent? ==> EventOk(version, events[i], Replay(events[..i]))
  }

  ghost predicate EventOk(version: nat, e: Event, before: FactMap)
    requires e.FactEvent?
  {
    e.toVersion <= version && e.toVersion == e.fromVersion + 1 && e.kind == KindFor(before, e.op)
  }

  /** What an event calls itself, judged from the facts before it. */
  function KindFor(before: FactMap, op: Operation): EventKind {
    if op.kind.RemoveFact? then FactRejected else if op.key in before then FactSuperseded else FactAdded
  }

  ghost predicate TurnsOk(version: nat, active: FactMap, turns: map<TurnId, Turn>) {
    forall t :: t in turns ==> TurnOk(version, active, turns[t])
  }

  /** A turn that still holds the current version has read the current facts. */
  ghost predicate TurnOk(version: nat, active: FactMap, turn: Turn) {
    && ((turn.Opened? || turn.Reserved? || turn.Loaded? || turn.Planning?) ==> turn.version <= version)
    && (turn.Planning? ==> 1 <= turn.version)
    && (turn.Loaded? ==>
          DistinctKeys(turn.facts) && (turn.version == version ==> MapOf(turn.facts) == active))
  }

  /** Plans are numbered without gaps, pinned to a stored version, and only the newest is current. */
  ghost predicate PlansOk(version: nat, plans: seq<Plan>) {
    && (forall i :: 0 <= i < |plans| ==>
          plans[i].planVersion == i + 1 && 1 <= plans[i].requirementsVersion <= version)
    && (forall i :: 0 <= i < |plans| - 1 ==> plans[i].stale)
  }

  ghost predicate SlotsOk(latest: nat, reservations: seq<TurnId>, turns: map<TurnId, Turn>) {
    && latest == 2 * |reservations|
    && (forall k :: 0 <= k < |reservations| ==>
          reservations[k] in turns && HasSlots(turns[reservations[k]]) && turns[reservations[k]].user == 2 * k + 1)
    && (forall t :: t in turns && HasSlots(turns[t]) ==> SlotOk(reservations, t, turns[t].user))
  }

  ghost predicate SlotOk(reservations: seq<TurnId>, t: TurnId, user: nat) {
    user % 2 == 1 && user / 2 < |reservations| && reservations[user / 2] == t
  }

  /** What stands in a turn's two slots. */
  ghost predicate SlotRowsOk(messages: map<nat, Message>, t: TurnId, turn: Turn)
    requires HasSlots(turn)
  {
    var user, assistant := turn.user, turn.user + 1;
    && user in messages && messages[user] == Message(User, Completed, t)
    && (assistant in messages ==> messages[assistant].role.Assistant? && messages[assistant].writer == t)
    && (turn.Reserved? || turn.Loaded? ==> assistant !in messages)
    && (turn.Planning? || turn.Finished? ==> assistant in messages && messages[assistant].status.Completed?)
    && (turn.FailedTurn? ==> assistant in messages && messages[assistant].status.Failed?)
  }

  ghost predicate MessagesOk(latest: nat, messages: map<nat, Message>, turns: map<TurnId, Turn>) {
    && (forall n :: n in messages ==> 1 <= n <= latest)
    && (forall t :: t in turns && HasSlots(turns[t]) ==> SlotRowsOk(messages, t, turns[t]))
  }

  ghost predicate Consistent(s: State) {
    && ProjectionsAgree(s)
    && SnapshotsOk(s.version, s.requirements, s.events, s.snapshots)
    && EventsOk(s.version, s.events)
    && TurnsOk(s.version, ActiveMap(s.rows), s.turns)
    && PlansOk(s.version, s.plans)
    && SlotsOk(s.latest, s.reservations, s.turns)
    && MessagesOk(s.latest, s.messages, s.turns)
  }

  // ---------------------------------------------------------------- lemmas on events

  lemma {:induction false} ReplayAppends(events: seq<Event>, more: seq<Event>)
    requires forall e :: e in more ==> e.Analytics?
    ensures Replay(events + more) == Replay(events)
  {
    if more == [] {
      assert events + more == events;
    } else {
      ReplayAppends(events, more[..|more| - 1]);
      assert (events + more)[..|events + more| - 1] == events + more[..|more| - 1];
      assert (events + more)[|events + more| - 1] in more;
    }
  }

  /** The events a batch writes replay to what the batch means. */
  lemma {:induction false} BatchReplays(rows: seq<FactRow>, events: seq<Event>, ops: seq<Operation>,
                                        source: MessageId, from: nat)
    ensures Replay(events + EventsFor(rows, ops, source, from)) == ApplyOps(Replay(events), ops, source)
  {
    if ops == [] {
      assert events + [] == events;
    } else {
      var init := ops[..|ops| - 1];
      var head := EventsFor(rows, init, source, from);
      var all := events + EventsFor(rows, ops, source, from);
      BatchReplays(rows, events, init, source, from);
      assert all[..|all| - 1] == events + head;
    }
  }

  lemma {:induction false} EventsForShape(rows: seq<FactRow>, ops: seq<Operation>, source: MessageId, from: nat)
    ensures |EventsFor(rows, ops, source, from)| == |ops|
    ensures forall i :: 0 <= i < |ops| ==>
              var e := EventsFor(rows, ops, source, from)[i];
              && e == EventFor(LedgerOps(rows, ops[..i], source), ops[i], source, from)
  {
    if ops != [] {
      var init := ops[..|ops| - 1];
      EventsForShape(rows, init, source, from);
      var head, all := EventsFor(rows, init, source, from), EventsFor(rows, ops, source, from);
      forall i | 0 <= i < |ops| ensures all[i] == EventFor(LedgerOps(rows, ops[..i], source), ops[i], source, from) {
        if i < |init| {
          assert all[i] == head[i] && init[..i] == ops[..i] && init[i] == ops[i];
        } else {
          assert ops[..i] == init;
        }
      }
    }
  }

  lemma {:induction false} BatchEventsTellTheTruth(rows: seq<FactRow>, events: seq<Event>, ops: seq<Operation>,
                                            source: MessageId, from: nat, i: nat)
    requires LedgerOk(rows) && Replay(events) == ActiveMap(rows) && i < |ops|
    ensures |EventsFor(rows, ops, source, from)| == |ops|
    ensures var all := events + EventsFor(rows, ops, source, from);
            all[|events| + i].FactEvent? &&
              all[|events| + i].kind == KindFor(Replay(all[..|events| + i]), all[|events| + i].op)
  {
    EventsForShape(rows, ops, source, from);
    EventsForShape(rows, ops[..i], source, from);
    var batch := EventsFor(rows, ops, source, from);
    var all := events + batch;
    EventsForPrefix(rows, ops, source, from, i);
    assert all[..|events| + i] == events + EventsFor(rows, ops[..i], source, from);
    BatchReplays(rows, events, ops[..i], source, from);
    LedgerFollowsBatch(rows, ops[..i], source);
    var before := LedgerOps(rows, ops[..i], source);
    FindActiveFinds(before, ops[i].key);
    ActiveMapHoldsActiveRows(before, ops[i].key);
  }

  lemma {:induction false} EventsForPrefix(rows: seq<FactRow>, ops: seq<Operation>, source: MessageId, from: nat,
                                        i: nat)
    requires i <= |ops|
    ensures |EventsFor(rows, ops, source, from)| == |ops|
    ensures EventsFor(rows, ops, source, from)[..i] == EventsFor(rows, ops[..i], source, from)
  {
    EventsForShape(rows, ops, source, from);
    if i == |ops| {
      assert ops[..i] == ops;
      assert EventsFor(rows, ops, source, from)[..i] == EventsFor(rows, ops, source, from);
    } else {
      var init := ops[..|ops| - 1];
      EventsForPrefix(rows, init, source, from, i);
      EventsForShape(rows, init, source, from);
      assert init[..i] == ops[..i];
      assert EventsFor(rows, ops, source, from)[..i] == EventsFor(rows, init, source, from)[..i];
    }
  }

  lemma {:induction false} UpToAppends(events: seq<Event>, more: seq<Event>, version: nat)
    ensures UpTo(events + more, version) == UpTo(events, version) + UpTo(more, version)
  {
    if more == [] {
      assert events + more == events;
    } else {
      UpToAppends(events, more[..|more| - 1], version);
      assert (events + more)[..|events + more| - 1] == events + more[..|more| - 1];
    }
  }

  lemma {:induction false} UpToIgnoresLater(more: seq<Event>, version: nat)
    requires forall e :: e in more ==> e.Analytics? || e.toVersion > version
    ensures UpTo(more, version) == []
  {
    if more != [] {
      assert more[|more| - 1] in more;
      UpToIgnoresLater(more[..|more| - 1], version);
    }
  }

  /** At the last version nothing but analytics is left out. */
  lemma {:induction false} ReplayUpToLast(events: seq<Event>, version: nat)
    requires forall e :: e in events ==> e.Analytics? || e.toVersion <= version
    ensures Replay(UpTo(events, version)) == Replay(events)
  {
    if events != [] {
      var init, last := events[..|events| - 1], events[|events| - 1];
      assert last in events;
      ReplayUpToLast(init, version);
      if last.FactEvent? {
        assert (UpTo(init, version) + [last])[..|UpTo(init, version)|] == UpTo(init, version);
      }
    }
  }

  lemma {:induction false} ActiveFactsListTheMap(rows: seq<FactRow>)
    requires OneActivePerKey(rows)
    ensures DistinctKeys(ActiveFacts(rows))
    ensures forall f :: f in ActiveFacts(rows) <==> f.key in ActiveMap(rows) && ActiveMap(rows)[f.key] == f
    ensures forall k :: k in ActiveMap(rows) ==> ActiveMap(rows)[k].key == k
    ensures MapOf(ActiveFacts(rows)) == ActiveMap(rows)
  {
    if rows != [] {
      var init, last := rows[..|rows| - 1], rows[|rows| - 1];
      assert OneActivePerKey(init) by { assert forall i :: 0 <= i < |init| ==> init[i] == rows[i]; }
      ActiveFactsListTheMap(init);
      if last.status.Active? {
        LastKeyIsNew(rows);
        AppendedFact(ActiveFacts(init), ActiveMap(init), last.fact);
      }
    }
  }

  lemma LastKeyIsNew(rows: seq<FactRow>)
    requires OneActivePerKey(rows) && rows != [] && rows[|rows| - 1].status.Active?
    ensures rows[|rows| - 1].fact.key !in ActiveMap(rows[..|rows| - 1])
  {
    var init := rows[..|rows| - 1];
    ActiveMapHoldsActiveRows(init, rows[|rows| - 1].fact.key);
    assert forall i :: 0 <= i < |init| ==> init[i] == rows[i];
  }

  lemma AppendedFact(facts: seq<Fact>, m: FactMap, f: Fact)
    requires DistinctKeys(facts) && MapOf(facts) == m && f.key !in m
    requires forall g :: g in facts <==> g.key in m && m[g.key] == g
    requires forall k :: k in m ==> m[k].key == k
    ensures DistinctKeys(facts + [f]) && MapOf(facts + [f]) == m[f.key := f]
    ensures forall g :: g in facts + [f] <==> g.key in m[f.key := f] && m[f.key := f][g.key] == g
  {
    assert (facts + [f])[..|facts|] == facts;
    forall i | 0 <= i < |facts| ensures facts[i].key != f.key { assert facts[i] in facts; }
    assert forall g :: g in facts + [f] <==> g in facts || g == f;
  }
}
