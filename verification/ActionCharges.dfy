/** Which completions cost money, and what each step of a call leaves, field by field. */
module ActionCharges {
  import opened Wrappers
  import opened Billing
  import opened ActionLedger
  import opened ActionOutcomes

  // ---------------------------------------------------------------- one step

  /** Which check fails first, and the organization that comes out if none does. */
  lemma CheckInFields(s: State, request: Request)
    ensures var r, id := Check(s, request), request.actionId;
            && (r == Err(StaleTimestamp) <==> !request.recent)
            && (r == Err(ActionNotFound) <==> request.recent && (id in s.starts ==> s.starts[id].agent == None))
            && (r == Err(DidMismatch) <==>
                  request.recent && id in s.starts && s.starts[id].agent != None
                  && s.starts[id].agent.value.did != request.did)
            && (r == Err(InvalidSignature) <==>
                  request.recent && id in s.starts && s.starts[id].agent != None
                  && s.starts[id].agent.value.did == request.did && !request.signed)
            && (r.Ok? <==>
                  request.recent && id in s.starts && s.starts[id].agent != None
                  && s.starts[id].agent.value.did == request.did && request.signed)
            && (r.Ok? ==> r.value == s.starts[id].agent.value.org)
  {
  }

  /** A lookup writes nothing but what becomes of its own call. */
  lemma LookupInFields(s: State, c: CallId, request: Request, found: Option<nat>)
    requires c !in s.calls && CanLookUp(s, request, found)
    ensures var now := Step(s, Lookup(c, request, found));
            && now.starts == s.starts && now.completions == s.completions && now.ledger == s.ledger
            && now.calls.Keys == s.calls.Keys + {c} && (forall d :: d in s.calls ==> now.calls[d] == s.calls[d])
            && var call := now.calls[c];
            && (Check(s, request).Err? ==> call == Answered(Err(Check(s, request).error)))
            && (Check(s, request).Ok? && found == None ==> call == Passed(request, Check(s, request).value))
            && (Check(s, request).Ok? && found != None ==>
                  call == Answered(if s.completions[found.value].payload == AnObject(Some(request.success))
                                   then Ok(Answer(found.value, request.success, None, true))
                                   else Err(ActionAlreadyCompleted)))
  {
  }

  /** A transaction appends the completion and answers with its position; only a success of an agent with an
      organization is charged and says so. */
  lemma TransactInFields(s: State, c: CallId, price: nat)
    requires c in s.calls && s.calls[c].Passed?
    ensures var now, request, org := Step(s, Transact(c, price)), s.calls[c].request, s.calls[c].org;
            && now.starts == s.starts
            && now.completions == s.completions + [Completion(request.actionId, AnObject(Some(request.success)))]
            && now.calls.Keys == s.calls.Keys && (forall d :: d in s.calls && d != c ==> now.calls[d] == s.calls[d])
            && (request.success == false || org == None ==>
                  && now.ledger == s.ledger
                  && now.calls[c] == Answered(Ok(Answer(|s.completions|, request.success, None, false))))
            && (request.success == true && org != None ==>
                  && now.ledger == Apply(s.ledger, Charge(org.value, KeyFor(request), price))
                  && now.calls[c] == Answered(Ok(Answer(|s.completions|, true, Some(price), false))))
  {
  }

  /** The key given, or else the action's id. */
  function KeyFor(request: Request): string {
    match request.eventKey
    case Some(key) => key
    case None => request.actionId
  }

  /** Start rows come and go without touching anything else, and so do credits. */
  lemma OthersInFields(s: State, id: ActionId, row: Start, org: OrgId, amount: int)
    ensures var now := Step(s, SetStart(id, row));
            && now.starts == s.starts[id := row] && now.completions == s.completions
            && now.ledger == s.ledger && now.calls == s.calls
    ensures var now := Step(s, Credit(org, amount));
            && now.ledger == Apply(s.ledger, TopUp(org, amount)) && now.completions == s.completions
            && now.starts == s.starts && now.calls == s.calls
  {
  }

  // ---------------------------------------------------------------- the ledger

  /** An organization without a wallet row has nothing. */
  lemma NoWalletIsEmpty(wallets: map<OrgId, Wallet>, org: OrgId)
    ensures WalletOf(wallets, org) == if org in wallets then wallets[org] else Wallet(0, 0, 0)
  {
  }

  /** A charge records its event once, at its first price, and takes the price from the wallet unless something
      was taken for the event before. */
  lemma ChargeInFields(l: Ledger, org: OrgId, key: string, price: nat)
    ensures var now := Apply(l, Charge(org, key, price));
            && now.events == (if HasEvent(l.events, org, key) then l.events else l.events + [Event(org, key, price)])
            && (DebitsOf(l.rows, org, key) != [] || price == 0 ==> now.rows == l.rows && now.wallets == l.wallets)
            && (DebitsOf(l.rows, org, key) == [] && price > 0 ==>
                  var w, free := WalletOf(l.wallets, org), if WalletOf(l.wallets, org).free > 0
                                                           then WalletOf(l.wallets, org).free else 0;
                  var taken := if price < free then price else free;
                  && now.wallets
                     == l.wallets[org := Wallet(w.free - taken, w.paid - (price - taken), w.balance - price)]
                  && now.rows == l.rows + (if taken > 0 then [Row(org, Some(key), Free, 0 - taken)] else [])
                                        + (if price > taken then [Row(org, Some(key), Paid, taken - price)] else []))
  {
    var w := WalletOf(l.wallets, org);
    assert l.rows + DebitRows(w, org, key, price)
           == l.rows + (if FromFree(w, price) > 0 then [Row(org, Some(key), Free, 0 - FromFree(w, price))] else [])
                     + (if price > FromFree(w, price) then [Row(org, Some(key), Paid, FromFree(w, price) - price)]
                        else []);
  }

  /** A top-up goes to the paid bucket, and the free one stays. */
  lemma TopUpInFields(l: Ledger, org: OrgId, amount: int)
    ensures var now, w := Apply(l, TopUp(org, amount)), WalletOf(l.wallets, org);
            && now.events == l.events
            && (amount <= 0 ==> now == l)
            && (amount > 0 ==>
                  && now.wallets == l.wallets[org := Wallet(w.free, w.paid + amount, w.balance + amount)]
                  && now.rows == l.rows + [Row(org, None, Paid, amount)])
  {
  }

  // ---------------------------------------------------------------- every run

  /** Step `n` commits a success for this organization under this key. */
  predicate CommitsFor(wallets: map<OrgId, Wallet>, xs: seq<Action>, n: nat, org: OrgId, key: string) {
    && Commits(wallets, xs, n)
    && RequestAt(wallets, xs, n).success == true
    && At(wallets, xs, n).calls[xs[n].call].org == Some(org)
    && key == KeyFor(RequestAt(wallets, xs, n))
  }

  lemma OneMoreEvent(s: State, x: Action, org: OrgId, key: string)
    ensures HasEvent(Step(s, x).ledger.events, org, key) <==>
            || HasEvent(s.ledger.events, org, key)
            || (&& x.Transact? && x.call in s.calls && s.calls[x.call].Passed?
                && s.calls[x.call].request.success == true && s.calls[x.call].org == Some(org)
                && key == KeyFor(s.calls[x.call].request))
  {
    if x.Transact? && x.call in s.calls && s.calls[x.call].Passed? {
      TransactInFields(s, x.call, x.price);
      var request, at := s.calls[x.call].request, s.calls[x.call].org;
      if request.success && at.Some? {
        ChargeInFields(s.ledger, at.value, KeyFor(request), x.price);
        MoreEvents(s.ledger.events, Event(at.value, KeyFor(request), x.price), org, key);
      }
    }
  }

  lemma MoreEvents(events: seq<Event>, e: Event, org: OrgId, key: string)
    ensures HasEvent(events + [e], org, key) <==> HasEvent(events, org, key) || (e.org == org && e.key == key)
  {
    if HasEvent(events, org, key) {
      var i :| 0 <= i < |events| && events[i].org == org && events[i].key == key;
      assert (events + [e])[i] == events[i];
    }
    assert (events + [e])[|events|] == e;
  }

  lemma CommitIsStep(wallets: map<OrgId, Wallet>, xs: seq<Action>, n: nat, org: OrgId, key: string)
    requires n < |xs|
    ensures CommitsFor(wallets, xs, n, org, key) <==>
            var s, x := At(wallets, xs, n), xs[n];
            && x.Transact? && x.call in s.calls && s.calls[x.call].Passed?
            && s.calls[x.call].request.success == true && s.calls[x.call].org == Some(org)
            && key == KeyFor(s.calls[x.call].request)
  {
  }

  lemma {:induction false} EventsUpTo(wallets: map<OrgId, Wallet>, xs: seq<Action>, n: nat, org: OrgId, key: string)
    requires n <= |xs|
    ensures HasEvent(At(wallets, xs, n).ledger.events, org, key)
            <==> exists k :: 0 <= k < n && CommitsFor(wallets, xs, k, org, key)
    decreases n
  {
    if n > 0 {
      EventsUpTo(wallets, xs, n - 1, org, key);
      NextMoment(wallets, xs, n - 1);
      OneMoreEvent(At(wallets, xs, n - 1), xs[n - 1], org, key);
      CommitIsStep(wallets, xs, n - 1, org, key);
    }
  }

  /** An event is recorded exactly for the key of a committed success of an agent with that organization: failures
      and agents without one cost nothing. */
  lemma EventsAreCommittedSuccesses(wallets: map<OrgId, Wallet>, xs: seq<Action>, org: OrgId, key: string)
    ensures HasEvent(Run(Init(wallets), xs).ledger.events, org, key)
            <==> exists n :: 0 <= n < |xs| && CommitsFor(wallets, xs, n, org, key)
  {
    EventsUpTo(wallets, xs, |xs|, org, key);
    assert xs[..|xs|] == xs;
  }
}
