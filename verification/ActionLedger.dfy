/** Completing signed actions: concurrent calls, replays, and one debit per event key. */
module ActionLedger {
  import opened Wrappers
  import opened Billing

  type ActionId = string

  type CallId = nat

  datatype Agent = Agent(did: string, org: Option<OrgId>)

  /** An action log row in phase `start`; its agent may have been deleted since. */
  datatype Start = Start(agent: Option<Agent>)

  /** The stored payload as the replay check sees it: `success` may be missing or no boolean. */
  datatype Payload = NotAnObject | AnObject(success: Option<bool>)

  datatype Completion = Completion(startActionId: ActionId, payload: Payload)

  /** The signed request; whether its timestamp is recent and its signature verifies is decided outside. */
  datatype Request = Request(did: string, actionId: ActionId, success: bool, eventKey: Option<string>,
                             recent: bool, signed: bool)

  datatype CompleteError = StaleTimestamp | ActionNotFound | DidMismatch | InvalidSignature | ActionAlreadyCompleted

  /** `completion` is the position of the completion row. */
  datatype Answer = Answer(completion: nat, success: bool, amountCharged: Option<nat>, replay: bool)

  datatype Call =
    | Passed(request: Request, org: Option<OrgId>)      // between the lookup and the transaction
    | Answered(result: Result<Answer, CompleteError>)

  datatype State = State(starts: map<ActionId, Start>, completions: seq<Completion>, ledger: Ledger,
                         calls: map<CallId, Call>)

  function Init(wallets: map<OrgId, Wallet>): State {
    State(map[], [], Opened(wallets), map[])
  }

  predicate IsCompatibleCompletionReplay(existing: Payload, requestedSuccess: bool) {
    existing.AnObject? && existing.success == Some(requestedSuccess)
  }

  /** What the search for a completion of an action may come up with. Rows have random ids and the query
      sets no order, so with several matching rows it may be any of them. */
  predicate Finds(completions: seq<Completion>, id: ActionId, found: Option<nat>) {
    if found.Some? then found.value < |completions| && completions[found.value].startActionId == id
    else forall i :: 0 <= i < |completions| ==> completions[i].startActionId != id
  }

  /** An order in which a table of `n` rows may be gone through. */
  predicate ListsAll(scan: seq<nat>, n: nat) {
    (forall m :: 0 <= m < |scan| ==> scan[m] < n) && forall i :: 0 <= i < n ==> i in scan
  }

  function EventKey(request: Request): string {
    if request.eventKey.Some? then request.eventKey.value else request.actionId
  }

  /** The checks in front of the search: the organization of the action's agent, or what is wrong. */
  function Check(s: State, request: Request): Result<Option<OrgId>, CompleteError> {
    if !request.recent then Err(StaleTimestamp)
    else if request.actionId !in s.starts then Err(ActionNotFound)
    else
      var agent := s.starts[request.actionId].agent;
      if agent.None? then Err(ActionNotFound)
      else if agent.value.did != request.did then Err(DidMismatch)
      else if !request.signed then Err(InvalidSignature)
      else Ok(agent.value.org)
  }

  predicate CanLookUp(s: State, request: Request, found: Option<nat>) {
    Check(s, request).Ok? ==> Finds(s.completions, request.actionId, found)
  }

  /** The first half of a call, given what the search finds. */
  function LookUp(s: State, request: Request, found: Option<nat>): Call
    requires CanLookUp(s, request, found)
  {
    var checked := Check(s, request);
    if checked.Err? then Answered(Err(checked.error))
    else if found.None? then Passed(request, checked.value)
    else if !IsCompatibleCompletionReplay(s.completions[found.value].payload, request.success)
    then Answered(Err(ActionAlreadyCompleted))
    else Answered(Ok(Answer(found.value, request.success, None, true)))
  }

  /** Whether completing the request costs the organization something to be recorded. */
  predicate IsBilled(request: Request, org: Option<OrgId>) {
    request.success && org.Some?
  }

  /** The transaction. */
  function Commit(s: State, c: CallId, request: Request, org: Option<OrgId>, price: nat): State {
    var billed := IsBilled(request, org);
    State(s.starts,
          s.completions + [Completion(request.actionId, AnObject(Some(request.success)))],
          if billed then Charged(s.ledger, org.value, EventKey(request), price) else s.ledger,
          s.calls[c := Answered(Ok(Answer(|s.completions|, request.success,
                                          if billed then Some(price) else None, false)))])
  }

  /** `SetStart` is whatever else happens to start rows and their agents. A call that is never committed
      was cut off between its two steps. */
  datatype Action =
    | SetStart(id: ActionId, row: Start)
    | Credit(org: OrgId, amount: int)
    | Lookup(call: CallId, request: Request, found: Option<nat>)
    | Transact(call: CallId, price: nat)

  function Step(s: State, x: Action): State {
    match x
    case SetStart(id, row) => s.(starts := s.starts[id := row])
    case Credit(org, amount) => s.(ledger := Apply(s.ledger, TopUp(org, amount)))
    case Lookup(c, request, found) =>
      if c in s.calls || !CanLookUp(s, request, found) then s
      else s.(calls := s.calls[c := LookUp(s, request, found)])
    case Transact(c, price) =>
      if c !in s.calls || !s.calls[c].Passed? then s else Commit(s, c, s.calls[c].request, s.calls[c].org, price)
  }

  function Run(s: State, xs: seq<Action>): State
    decreases |xs|
  {
    if xs == [] then s else Step(Run(s, xs[..|xs| - 1]), xs[|xs| - 1])
  }

  // ---------------------------------------------------------------- money

  /** The bills a run sends to the ledger: top-ups and committed successes of agents with an organization. */
  function BillsOf(s: State, xs: seq<Action>): seq<Bill>
    decreases |xs|
  {
    if xs == [] then []
    else
      var before, x, rest := Run(s, xs[..|xs| - 1]), xs[|xs| - 1], BillsOf(s, xs[..|xs| - 1]);
      match x
      case Credit(org, amount) => rest + [TopUp(org, amount)]
      case Transact(c, price) =>
        if c in before.calls && before.calls[c].Passed? && IsBilled(before.calls[c].request, before.calls[c].org)
        then rest + [Charge(before.calls[c].org.value, EventKey(before.calls[c].request), price)]
        else rest
      case _ => rest
  }

  lemma {:induction false} LedgerFollowsBills(s: State, xs: seq<Action>)
    ensures Run(s, xs).ledger == ApplyAll(s.ledger, BillsOf(s, xs))
    decreases |xs|
  {
    if xs != [] { LedgerFollowsBills(s, xs[..|xs| - 1]); }
  }

  /** However calls interleave, every event key is debited at most once (in at most two rows, one per
      bucket), and the rows account for the wallet. */
  lemma EveryRunChargesOnce(wallets: map<OrgId, Wallet>, xs: seq<Action>)
    ensures Sound(Run(Init(wallets), xs).ledger)
    ensures Balanced(wallets, Run(Init(wallets), xs).ledger)
  {
    LedgerFollowsBills(Init(wallets), xs);
    EveryRunIsSound(wallets, BillsOf(Init(wallets), xs));
  }

  /** And the debit of a key stands: nothing later adds to it or takes it back. */
  lemma DebitsStand(wallets: map<OrgId, Wallet>, xs: seq<Action>, more: seq<Action>, org: OrgId, key: string)
    requires DebitsOf(Run(Init(wallets), xs).ledger.rows, org, key) != []
    ensures DebitsOf(Run(Run(Init(wallets), xs), more).ledger.rows, org, key)
            == DebitsOf(Run(Init(wallets), xs).ledger.rows, org, key)
  {
    var s := Run(Init(wallets), xs);
    LedgerFollowsBills(s, more);
    DebitsAreFinal(s.ledger, BillsOf(s, more), org, key);
  }

  /** The wallet is its first balance plus the credits less the stored event amounts exactly when no
      committed completion found its event stored at no charge and charged for it. */
  lemma WalletsMatchEvents(wallets: map<OrgId, Wallet>, xs: seq<Action>, org: OrgId)
    ensures var l := Run(Init(wallets), xs).ledger;
            WalletOf(l.wallets, org).balance ==
              WalletOf(wallets, org).balance + Credits(l.rows, org) - Stored(l.events, org)
            <==> NeverChargesLate(wallets, BillsOf(Init(wallets), xs), org)
  {
    LedgerFollowsBills(Init(wallets), xs);
    WalletMatchesStoredAmounts(wallets, BillsOf(Init(wallets), xs), org);
  }

  /** So it always is if a key costs the same whenever it is completed. */
  lemma StablePricesMatchEvents(wallets: map<OrgId, Wallet>, xs: seq<Action>, price: (OrgId, string) -> nat, org: OrgId)
    requires PricesAreStable(BillsOf(Init(wallets), xs), price)
    ensures var l := Run(Init(wallets), xs).ledger;
            WalletOf(l.wallets, org).balance ==
              WalletOf(wallets, org).balance + Credits(l.rows, org) - Stored(l.events, org)
  {
    WalletsMatchEvents(wallets, xs, org);
    StablePricesNeverChargeLate(wallets, BillsOf(Init(wallets), xs), price, org);
  }

  // ---------------------------------------------------------------- a call on its own

  /** A call whose two steps run without another in between. */
  datatype Whole =
    | Other(x: Action)
    | Complete(call: CallId, request: Request, found: Option<nat>, price: nat)

  function Alone(s: State, op: Whole): State {
    match op
    case Other(x) => Step(s, x)
    case Complete(c, request, found, price) => Step(Step(s, Lookup(c, request, found)), Transact(c, price))
  }

  function RunAlone(s: State, ops: seq<Whole>): State
    decreases |ops|
  {
    if ops == [] then s else Alone(RunAlone(s, ops[..|ops| - 1]), ops[|ops| - 1])
  }

  // ---------------------------------------------------------------- the service

  class ActionsService {
    const tables: Tables
    var starts: map<ActionId, Start>
    var completions: seq<Completion>
    var calls: map<CallId, Call>

    constructor (tables: Tables)
      ensures this.tables == tables && starts == map[] && completions == [] && calls == map[]
    {
      this.tables := tables;
      starts, completions, calls := map[], [], map[];
    }

    function View(): State
      reads this, tables
    {
      State(starts, completions, tables.View(), calls)
    }

    /** Goes through the rows in the order in which the database happens to have them. */
    method FindCompletionFor(id: ActionId, scan: seq<nat>) returns (found: Option<nat>)
      requires ListsAll(scan, |completions|)
      ensures Finds(completions, id, found)
    {
      for n := 0 to |scan|
        invariant forall m :: 0 <= m < n ==> completions[scan[m]].startActionId != id
      {
        if completions[scan[n]].startActionId == id { return Some(scan[n]); }
      }
      forall i | 0 <= i < |completions| ensures completions[i].startActionId != id {
        assert i in scan;
        var m :| 0 <= m < |scan| && scan[m] == i;
      }
      found := None;
    }

    /** The first half of `complete`. */
    method BeginComplete(c: CallId, request: Request, scan: seq<nat>) returns (pending: bool, found: Option<nat>)
      requires c !in calls
      requires ListsAll(scan, |completions|)
      modifies `calls
      ensures View() == Step(old(View()), Lookup(c, request, found))
      ensures c in calls && pending == calls[c].Passed?
    {
      pending, found := false, None;
      if !request.recent {
        calls := calls[c := Answered(Err(StaleTimestamp))];
        return;
      }
      if request.actionId !in starts || starts[request.actionId].agent.None? {
        calls := calls[c := Answered(Err(ActionNotFound))];
        return;
      }
      var agent := starts[request.actionId].agent.value;
      if agent.did != request.did {
        calls := calls[c := Answered(Err(DidMismatch))];
        return;
      }
      if !request.signed {
        calls := calls[c := Answered(Err(InvalidSignature))];
        return;
      }
      found := FindCompletionFor(request.actionId, scan);
      if found.Some? {
        if !IsCompatibleCompletionReplay(completions[found.value].payload, request.success) {
          calls := calls[c := Answered(Err(ActionAlreadyCompleted))];
          return;
        }
        calls := calls[c := Answered(Ok(Answer(found.value, request.success, None, true)))];
        return;
      }
      calls := calls[c := Passed(request, agent.org)];
      pending := true;
    }

    /** The second half: one transaction. */
    method FinishComplete(c: CallId, price: nat) returns (answer: Answer)
      requires c in calls && calls[c].Passed?
      modifies `completions, `calls, tables
      ensures View() == Step(old(View()), Transact(c, price))
      ensures c in calls && calls[c] == Answered(Ok(answer))
    {
      var request, org := calls[c].request, calls[c].org;
      var completion := |completions|;
      completions := completions + [Completion(request.actionId, AnObject(Some(request.success)))];
      var amountCharged: Option<nat> := None;
      if request.success && org.Some? {
        amountCharged := Some(price);
        tables.RecordEvent(org.value, EventKey(request), price);
      }
      answer := Answer(completion, request.success, amountCharged, false);
      calls := calls[c := Answered(Ok(answer))];
    }

    /** Both halves with no other call in between. */
    method CompleteAction(c: CallId, request: Request, scan: seq<nat>, price: nat)
      returns (result: Result<Answer, CompleteError>, found: Option<nat>)
      requires c !in calls
      requires ListsAll(scan, |completions|)
      modifies this, tables
      ensures View() == Alone(old(View()), Complete(c, request, found, price))
      ensures c in calls && calls[c] == Answered(result)
    {
      var pending;
      pending, found := BeginComplete(c, request, scan);
      if pending {
        var answer := FinishComplete(c, price);
        result := Ok(answer);
      } else {
        result := calls[c].result;
      }
    }
  }
}
