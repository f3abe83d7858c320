/** Billable events, the two-bucket wallet and its transaction rows. Amounts are in units of 1e-8. */
module Billing {
  import opened Wrappers

  type OrgId = nat

  datatype Wallet = Wallet(free: int, paid: int, balance: int)

  const EMPTY_WALLET := Wallet(0, 0, 0)

  /** A successful event; there is one row per organization and key. */
  datatype Event = Event(org: OrgId, key: string, amount: nat)

  datatype CreditKind = Free | Paid

  /** A wallet transaction: a usage debit carries the key of its event, a credit none. */
  datatype Row = Row(org: OrgId, event: Option<string>, kind: CreditKind, amount: int)

  datatype Ledger = Ledger(events: seq<Event>, rows: seq<Row>, wallets: map<OrgId, Wallet>)

  function WalletOf(wallets: map<OrgId, Wallet>, org: OrgId): Wallet {
    if org in wallets then wallets[org] else EMPTY_WALLET
  }

  function FindEvent(events: seq<Event>, org: OrgId, key: string): (r: Option<nat>)
    ensures r.Some? ==> r.value < |events| && events[r.value].org == org && events[r.value].key == key
    ensures r.None? ==> forall i :: 0 <= i < |events| ==> !(events[i].org == org && events[i].key == key)
  {
    if events == [] then None
    else
      var last := events[|events| - 1];
      if last.org == org && last.key == key then Some(|events| - 1) else FindEvent(events[..|events| - 1], org, key)
  }

  /** The usage debits of one event, in order. */
  function DebitsOf(rows: seq<Row>, org: OrgId, key: string): seq<Row> {
    if rows == [] then []
    else
      var rest, last := DebitsOf(rows[..|rows| - 1], org, key), rows[|rows| - 1];
      if last.org == org && last.event == Some(key) then rest + [last] else rest
  }

  // ---------------------------------------------------------------- the debit

  function FromFree(w: Wallet, amount: nat): (n: nat)
    ensures n <= amount
  {
    var available: nat := if w.free > 0 then w.free else 0;
    if available >= amount then amount else available
  }

  function DebitRows(w: Wallet, org: OrgId, key: string, amount: nat): seq<Row> {
    var fromFree := FromFree(w, amount);
    (if fromFree > 0 then [Row(org, Some(key), Free, 0 - fromFree)] else [])
    + (if amount - fromFree > 0 then [Row(org, Some(key), Paid, fromFree - amount)] else [])
  }

  function Debited(w: Wallet, amount: nat): Wallet {
    var fromFree := FromFree(w, amount);
    Wallet(w.free - fromFree, w.paid - (amount - fromFree), w.balance - amount)
  }

  datatype Bill =
    | Charge(org: OrgId, key: string, price: nat)
    | TopUp(org: OrgId, amount: int)

  /** Records a successful completion: the event is created once, and debited unless it was already. */
  function Charged(l: Ledger, org: OrgId, key: string, price: nat): Ledger {
    var events := if FindEvent(l.events, org, key).Some? then l.events else l.events + [Event(org, key, price)];
    if DebitsOf(l.rows, org, key) != [] || price == 0 then l.(events := events)
    else
      var w := WalletOf(l.wallets, org);
      Ledger(events, l.rows + DebitRows(w, org, key, price), l.wallets[org := Debited(w, price)])
  }

  /** A top-up of zero or less is refused. */
  function Apply(l: Ledger, b: Bill): Ledger {
    match b
    case Charge(org, key, price) => Charged(l, org, key, price)
    case TopUp(org, amount) =>
      if amount <= 0 then l
      else
        var w := WalletOf(l.wallets, org);
        l.(rows := l.rows + [Row(org, None, Paid, amount)],
           wallets := l.wallets[org := w.(paid := w.paid + amount, balance := w.balance + amount)])
  }

  function ApplyAll(l: Ledger, bills: seq<Bill>): Ledger
    decreases |bills|
  {
    if bills == [] then l else Apply(ApplyAll(l, bills[..|bills| - 1]), bills[|bills| - 1])
  }

  // ---------------------------------------------------------------- sums

  function Total(rows: seq<Row>): int {
    if rows == [] then 0 else Total(rows[..|rows| - 1]) + rows[|rows| - 1].amount
  }

  /** An organization's transaction rows. */
  function RowsOf(rows: seq<Row>, org: OrgId): seq<Row> {
    if rows == [] then []
    else
      var rest, last := RowsOf(rows[..|rows| - 1], org), rows[|rows| - 1];
      if last.org == org then rest + [last] else rest
  }

  /** What was taken for an event. */
  function TakenFor(rows: seq<Row>, org: OrgId, key: string): int {
    -Total(DebitsOf(rows, org, key))
  }

  /** What was taken for all of an organization's events together. */
  function Taken(events: seq<Event>, rows: seq<Row>, org: OrgId): int {
    if events == [] then 0
    else
      var last := events[|events| - 1];
      Taken(events[..|events| - 1], rows, org) + (if last.org == org then TakenFor(rows, org, last.key) else 0)
  }

  function Stored(events: seq<Event>, org: OrgId): int {
    if events == [] then 0
    else
      var last := events[|events| - 1];
      Stored(events[..|events| - 1], org) + (if last.org == org then last.amount else 0)
  }

  function Credits(rows: seq<Row>, org: OrgId): int {
    if rows == [] then 0
    else
      var last := rows[|rows| - 1];
      Credits(rows[..|rows| - 1], org) + (if last.org == org && last.event.None? then last.amount else 0)
  }

  lemma {:induction false} FiltersConcat(a: seq<Row>, b: seq<Row>, org: OrgId, key: string)
    ensures DebitsOf(a + b, org, key) == DebitsOf(a, org, key) + DebitsOf(b, org, key)
    ensures RowsOf(a + b, org) == RowsOf(a, org) + RowsOf(b, org)
    ensures Credits(a + b, org) == Credits(a, org) + Credits(b, org)
    ensures Total(a + b) == Total(a) + Total(b)
  {
    if b == [] {
      assert a + b == a;
    } else {
      var init := b[..|b| - 1];
      assert (a + b)[..|a + b| - 1] == a + init;
      FiltersConcat(a, init, org, key);
    }
  }

  lemma {:induction false} OneRow(r: Row, org: OrgId, key: string)
    ensures DebitsOf([r], org, key) == if r.org == org && r.event == Some(key) then [r] else []
    ensures RowsOf([r], org) == if r.org == org then [r] else []
    ensures Credits([r], org) == if r.org == org && r.event.None? then r.amount else 0
    ensures Total([r]) == r.amount
  {
  }

  /** What a debit's rows are, seen through every filter: one row per bucket touched, the price in all. */
  lemma DebitRowsShape(w: Wallet, at: OrgId, of: string, price: nat, org: OrgId, key: string)
    requires price > 0
    ensures var rows := DebitRows(w, at, of, price);
            && Total(rows) == 0 - price
            && DebitsOf(rows, org, key) == (if org == at && key == of then rows else [])
            && RowsOf(rows, org) == (if org == at then rows else [])
            && Credits(rows, org) == 0
            && 1 <= |rows| <= 2 && (|rows| == 2 ==> rows[0].kind == Free && rows[1].kind == Paid)
            && forall i :: 0 <= i < |rows| ==> rows[i].org == at && rows[i].event == Some(of) && rows[i].amount < 0
  {
    var rows := DebitRows(w, at, of, price);
    OneRow(rows[0], org, key);
    if |rows| == 2 {
      OneRow(rows[1], org, key);
      FiltersConcat([rows[0]], [rows[1]], org, key);
      assert rows == [rows[0]] + [rows[1]];
    } else {
      assert rows == [rows[0]];
    }
  }

  // ---------------------------------------------------------------- what every ledger keeps

  ghost predicate EventsAreDistinct(events: seq<Event>) {
    forall i, j :: 0 <= i < j < |events| ==> !(events[i].org == events[j].org && events[i].key == events[j].key)
  }

  ghost predicate HasEvent(events: seq<Event>, org: OrgId, key: string) {
    exists i :: 0 <= i < |events| && events[i].org == org && events[i].key == key
  }

  /** The debits of one event: none, or one per bucket, all taking something. */
  ghost predicate OneDebit(debits: seq<Row>) {
    && |debits| <= 2
    && (|debits| == 2 ==> debits[0].kind == Free && debits[1].kind == Paid)
    && (forall i :: 0 <= i < |debits| ==> debits[i].amount < 0)
  }

  ghost predicate Sound(l: Ledger) {
    && EventsAreDistinct(l.events)
    && (forall org, key :: OneDebit(DebitsOf(l.rows, org, key)))
    && (forall org, key :: DebitsOf(l.rows, org, key) != [] ==> HasEvent(l.events, org, key))
    && (forall i :: 0 <= i < |l.events| && l.events[i].amount > 0 ==>
          TakenFor(l.rows, l.events[i].org, l.events[i].key) == l.events[i].amount)
  }

  /** Both buckets make up the balance, the free one is never overdrawn, and the rows explain every
      change since the ledger was opened. */
  ghost predicate Balanced(initial: map<OrgId, Wallet>, l: Ledger) {
    forall org :: BalancedFor(initial, l, org)
  }

  ghost predicate BalancedFor(initial: map<OrgId, Wallet>, l: Ledger, org: OrgId) {
    && WalletOf(l.wallets, org).balance == WalletOf(initial, org).balance + Total(RowsOf(l.rows, org))
    && WalletOf(l.wallets, org).free + WalletOf(l.wallets, org).paid - WalletOf(l.wallets, org).balance
       == WalletOf(initial, org).free + WalletOf(initial, org).paid - WalletOf(initial, org).balance
    && (WalletOf(initial, org).free >= 0 ==> WalletOf(l.wallets, org).free >= 0)
  }

  lemma EventCreated(l: Ledger, org: OrgId, key: string, price: nat)
    requires Sound(l)
    ensures var events := Charged(l, org, key, price).events;
            && EventsAreDistinct(events) && HasEvent(events, org, key)
            && l.events <= events && |events| <= |l.events| + 1
            && (|events| > |l.events| ==>
                 events == l.events + [Event(org, key, price)] && DebitsOf(l.rows, org, key) == [])
  {
    var r, events := FindEvent(l.events, org, key), Charged(l, org, key, price).events;
    if r.Some? { assert events[r.value].org == org; } else { assert events[|l.events|].org == org; }
  }

  lemma AppendedDebits(before: seq<Row>, w: Wallet, org: OrgId, key: string, price: nat, o: OrgId, k: string)
    requires price > 0 && DebitsOf(before, org, key) == []
    ensures var rows := DebitRows(w, org, key, price);
            && DebitsOf(before + rows, o, k) == (if o == org && k == key then rows else DebitsOf(before, o, k))
            && Total(rows) == 0 - price && rows != [] && OneDebit(rows)
  {
    var rows := DebitRows(w, org, key, price);
    DebitRowsShape(w, org, key, price, o, k);
    FiltersConcat(before, rows, o, k);
  }

  predicate Debits(l: Ledger, org: OrgId, key: string, price: nat) {
    DebitsOf(l.rows, org, key) == [] && price > 0
  }

  lemma ChargedRows(l: Ledger, org: OrgId, key: string, price: nat)
    ensures var m := Charged(l, org, key, price);
            if Debits(l, org, key, price)
            then m.rows == l.rows + DebitRows(WalletOf(l.wallets, org), org, key, price)
                 && m.wallets == l.wallets[org := Debited(WalletOf(l.wallets, org), price)]
            else m.rows == l.rows && m.wallets == l.wallets
  {
  }

  /** A charge touches the debits of its own event only, and only when there were none. */
  lemma ChargeDebits(l: Ledger, org: OrgId, key: string, price: nat, o: OrgId, k: string)
    ensures var before, after := DebitsOf(l.rows, o, k), DebitsOf(Charged(l, org, key, price).rows, o, k);
            if o == org && k == key && before == [] && price > 0
            then Total(after) == 0 - price && after != [] && OneDebit(after)
            else after == before
  {
    ChargedRows(l, org, key, price);
    if Debits(l, org, key, price) { AppendedDebits(l.rows, WalletOf(l.wallets, org), org, key, price, o, k); }
  }

  lemma ChargeKeepsDebits(l: Ledger, org: OrgId, key: string, price: nat)
    requires Sound(l)
    ensures var m := Charged(l, org, key, price);
            && (forall o, k :: OneDebit(DebitsOf(m.rows, o, k)))
            && (forall o, k :: DebitsOf(m.rows, o, k) != [] ==> HasEvent(m.events, o, k))
  {
    var m := Charged(l, org, key, price);
    EventCreated(l, org, key, price);
    forall o, k ensures OneDebit(DebitsOf(m.rows, o, k)) { ChargeDebits(l, org, key, price, o, k); }
    forall o, k | DebitsOf(m.rows, o, k) != [] ensures HasEvent(m.events, o, k) {
      ChargeDebits(l, org, key, price, o, k);
      if DebitsOf(l.rows, o, k) != [] {
        var i :| 0 <= i < |l.events| && l.events[i].org == o && l.events[i].key == k;
        assert m.events[i] == l.events[i];
      }
    }
  }

  lemma ChargeKeepsSound(l: Ledger, org: OrgId, key: string, price: nat)
    requires Sound(l)
    ensures Sound(Charged(l, org, key, price))
  {
    var m := Charged(l, org, key, price);
    EventCreated(l, org, key, price);
    ChargeKeepsDebits(l, org, key, price);
    forall i | 0 <= i < |m.events| && m.events[i].amount > 0
      ensures TakenFor(m.rows, m.events[i].org, m.events[i].key) == m.events[i].amount
    {
      ChargeDebits(l, org, key, price, m.events[i].org, m.events[i].key);
      if i < |l.events| { assert m.events[i] == l.events[i]; }
    }
  }

  lemma TopUpKeepsSound(l: Ledger, org: OrgId, amount: int)
    requires Sound(l)
    ensures Sound(Apply(l, TopUp(org, amount)))
  {
    if amount > 0 {
      forall o, k ensures DebitsOf(l.rows + [Row(org, None, Paid, amount)], o, k) == DebitsOf(l.rows, o, k) {
        FiltersConcat(l.rows, [Row(org, None, Paid, amount)], o, k);
        OneRow(Row(org, None, Paid, amount), o, k);
      }
    }
  }

  lemma RowsAdd(before: seq<Row>, rows: seq<Row>, org: OrgId)
    ensures Total(RowsOf(before + rows, org)) == Total(RowsOf(before, org)) + Total(RowsOf(rows, org))
  {
    FiltersConcat(before, rows, org, "");
    FiltersConcat(RowsOf(before, org), RowsOf(rows, org), org, "");
  }

  lemma DebitMoves(w: Wallet, amount: nat)
    ensures var d := Debited(w, amount);
            && d.free + d.paid - d.balance == w.free + w.paid - w.balance
            && (w.free >= 0 ==> 0 <= d.free <= w.free)
            && (d.paid < w.paid ==> d.free <= 0)   // paid credit is touched only when the free one is used up
  {
  }

  ghost predicate Moved(before: map<OrgId, Wallet>, rows: seq<Row>, after: map<OrgId, Wallet>, more: seq<Row>,
                        org: OrgId) {
    var v, w := WalletOf(before, org), WalletOf(after, org);
    && w.balance - v.balance == Total(RowsOf(more, org)) - Total(RowsOf(rows, org))
    && w.free + w.paid - w.balance == v.free + v.paid - v.balance
    && (v.free >= 0 ==> w.free >= 0)
  }

  lemma DebitTotals(rows: seq<Row>, w: Wallet, at: OrgId, key: string, price: nat, org: OrgId)
    requires price > 0
    ensures Total(RowsOf(rows + DebitRows(w, at, key, price), org))
            == Total(RowsOf(rows, org)) - (if org == at then price else 0)
  {
    RowsAdd(rows, DebitRows(w, at, key, price), org);
    DebitRowsShape(w, at, key, price, org, key);
  }

  lemma DebitRowsMove(wallets: map<OrgId, Wallet>, rows: seq<Row>, at: OrgId, key: string, price: nat, org: OrgId)
    requires price > 0
    ensures var w := WalletOf(wallets, at);
            Moved(wallets, rows, wallets[at := Debited(w, price)], rows + DebitRows(w, at, key, price), org)
  {
    var w := WalletOf(wallets, at);
    var d, more := Debited(w, price), rows + DebitRows(w, at, key, price);
    DebitTotals(rows, w, at, key, price, org);
    DebitMoves(w, price);
    assert d.balance == w.balance - price;
    assert WalletOf(wallets[at := d], org) == if org == at then d else WalletOf(wallets, org);
  }

  lemma ApplyMoves(l: Ledger, b: Bill, org: OrgId)
    ensures Moved(l.wallets, l.rows, Apply(l, b).wallets, Apply(l, b).rows, org)
  {
    match b
    case Charge(at, key, price) =>
      ChargedRows(l, at, key, price);
      if Debits(l, at, key, price) { DebitRowsMove(l.wallets, l.rows, at, key, price, org); }
    case TopUp(at, amount) =>
      if amount > 0 {
        RowsAdd(l.rows, [Row(at, None, Paid, amount)], org);
        OneRow(Row(at, None, Paid, amount), org, "");
      }
  }

  lemma ApplyKeepsBalance(initial: map<OrgId, Wallet>, l: Ledger, b: Bill)
    requires Balanced(initial, l)
    ensures Balanced(initial, Apply(l, b))
  {
    forall org ensures BalancedFor(initial, Apply(l, b), org) {
      assert BalancedFor(initial, l, org);
      ApplyMoves(l, b, org);
    }
  }

  /** A ledger without events or transactions. */
  function Opened(wallets: map<OrgId, Wallet>): Ledger {
    Ledger([], [], wallets)
  }

  /** In every run each event is debited at most once, and double entry holds: the rows are exactly the
      difference between a wallet and what it was at first. */
  lemma {:induction false} EveryRunIsSound(wallets: map<OrgId, Wallet>, bills: seq<Bill>)
    ensures Sound(ApplyAll(Opened(wallets), bills))
    ensures Balanced(wallets, ApplyAll(Opened(wallets), bills))
    decreases |bills|
  {
    if bills != [] {
      var l, b := ApplyAll(Opened(wallets), bills[..|bills| - 1]), bills[|bills| - 1];
      EveryRunIsSound(wallets, bills[..|bills| - 1]);
      ApplyKeepsBalance(wallets, l, b);
      match b
      case Charge(org, key, price) => ChargeKeepsSound(l, org, key, price);
      case TopUp(org, amount) => TopUpKeepsSound(l, org, amount);
    }
  }

  /** Once an event is debited, nothing that happens later adds to its debit. */
  lemma {:induction false} DebitsAreFinal(l: Ledger, bills: seq<Bill>, org: OrgId, key: string)
    requires DebitsOf(l.rows, org, key) != []
    ensures DebitsOf(ApplyAll(l, bills).rows, org, key) == DebitsOf(l.rows, org, key)
    decreases |bills|
  {
    if bills != [] {
      DebitsAreFinal(l, bills[..|bills| - 1], org, key);
      var m, b := ApplyAll(l, bills[..|bills| - 1]), bills[|bills| - 1];
      match b
      case Charge(at, of, price) =>
        if DebitsOf(m.rows, at, of) == [] && price > 0 {
          FiltersConcat(m.rows, DebitRows(WalletOf(m.wallets, at), at, of, price), org, key);
          DebitRowsShape(WalletOf(m.wallets, at), at, of, price, org, key);
        }
      case TopUp(at, amount) =>
        FiltersConcat(m.rows, [Row(at, None, Paid, amount)], org, key);
        OneRow(Row(at, None, Paid, amount), org, key);
    }
  }

  // ---------------------------------------------------------------- wallet against stored amounts

  lemma {:induction false} TakenAdds(events: seq<Event>, rows: seq<Row>, r: Row, org: OrgId)
    requires EventsAreDistinct(events)
    ensures Taken(events, rows + [r], org)
            == Taken(events, rows, org)
               - (if r.org == org && r.event.Some? && HasEvent(events, org, r.event.value) then r.amount else 0)
  {
    if events != [] {
      var init, last := events[..|events| - 1], events[|events| - 1];
      TakenAdds(init, rows, r, org);
      FiltersConcat(rows, [r], org, last.key);
      OneRow(r, org, last.key);
      FiltersConcat(DebitsOf(rows, org, last.key), DebitsOf([r], org, last.key), org, "");
      if r.org == org && r.event.Some? { HasEventSplits(events, org, r.event.value); }
    }
  }

  lemma HasEventSplits(events: seq<Event>, org: OrgId, key: string)
    requires events != [] && EventsAreDistinct(events)
    ensures var init, last := events[..|events| - 1], events[|events| - 1];
            && (HasEvent(events, org, key) <==> HasEvent(init, org, key) || (last.org == org && last.key == key))
            && !(HasEvent(init, org, key) && last.org == org && last.key == key)
  {
  }

  ghost predicate DebitsHaveEvents(events: seq<Event>, rows: seq<Row>, org: OrgId) {
    forall i :: 0 <= i < |rows| && rows[i].org == org && rows[i].event.Some? ==>
        HasEvent(events, org, rows[i].event.value)
  }

  lemma {:induction false} TakenOfNothing(events: seq<Event>, org: OrgId)
    ensures Taken(events, [], org) == 0
  {
    if events != [] { TakenOfNothing(events[..|events| - 1], org); }
  }

  /** An organization's rows are its credits less what its events took. */
  lemma {:induction false} RowsSplit(events: seq<Event>, rows: seq<Row>, org: OrgId)
    requires EventsAreDistinct(events) && DebitsHaveEvents(events, rows, org)
    ensures Total(RowsOf(rows, org)) == Credits(rows, org) - Taken(events, rows, org)
  {
    if rows == [] {
      TakenOfNothing(events, org);
    } else {
      var init, last := rows[..|rows| - 1], rows[|rows| - 1];
      RowsSplit(events, init, org);
      assert rows == init + [last];
      TakenAdds(events, init, last, org);
    }
  }

  lemma {:induction false} DebitsAreListed(rows: seq<Row>, i: nat)
    requires i < |rows| && rows[i].event.Some?
    ensures DebitsOf(rows, rows[i].org, rows[i].event.value) != []
  {
    if i < |rows| - 1 {
      DebitsAreListed(rows[..|rows| - 1], i);
    }
  }

  ghost predicate StoredAsTaken(l: Ledger, e: Event) {
    var taken := TakenFor(l.rows, e.org, e.key);
    taken >= 0 && (e.amount > 0 ==> taken == e.amount)
  }

  /** An event that cost nothing when it was stored and something later. */
  predicate IsLate(l: Ledger, e: Event) {
    e.amount == 0 && TakenFor(l.rows, e.org, e.key) > 0
  }

  ghost predicate HasLate(l: Ledger, events: seq<Event>, org: OrgId) {
    exists i :: 0 <= i < |events| && events[i].org == org && IsLate(l, events[i])
  }

  lemma {:induction false} OnlyLateDebitsDiffer(l: Ledger, events: seq<Event>, org: OrgId)
    requires forall i :: 0 <= i < |events| ==> StoredAsTaken(l, events[i])
    ensures Stored(events, org) <= Taken(events, l.rows, org)
    ensures Stored(events, org) == Taken(events, l.rows, org) <==> !HasLate(l, events, org)
  {
    if events != [] {
      var init, last := events[..|events| - 1], events[|events| - 1];
      assert forall i :: 0 <= i < |init| ==> init[i] == events[i];
      OnlyLateDebitsDiffer(l, init, org);
      assert StoredAsTaken(l, last);
      if HasLate(l, init, org) {
        var i :| 0 <= i < |init| && init[i].org == org && IsLate(l, init[i]);
        assert events[i].org == org && IsLate(l, events[i]);
      }
      if last.org == org && IsLate(l, last) { assert HasLate(l, events, org); }
    }
  }

  lemma TakenIsPositive(debits: seq<Row>)
    requires OneDebit(debits)
    ensures -Total(debits) >= 0 && (debits != [] <==> -Total(debits) > 0)
  {
  }

  lemma SoundEventsAreStoredAsTaken(l: Ledger)
    requires Sound(l)
    ensures forall i :: 0 <= i < |l.events| ==> StoredAsTaken(l, l.events[i])
  {
    forall i | 0 <= i < |l.events| ensures StoredAsTaken(l, l.events[i]) {
      TakenIsPositive(DebitsOf(l.rows, l.events[i].org, l.events[i].key));
    }
  }

  /** The guard that lets it happen: the event exists, was stored at no charge, and now has a price. */
  predicate ChargesLate(l: Ledger, b: Bill, org: OrgId) {
    b.Charge? && b.org == org && Debits(l, org, b.key, b.price)
    && var found := FindEvent(l.events, org, b.key);
       found.Some? && l.events[found.value].amount == 0
  }

  /** In a sound ledger the wallet shows exactly the stored amounts unless there is a late event. */
  lemma SoundWallet(initial: map<OrgId, Wallet>, l: Ledger, org: OrgId)
    requires Sound(l) && Balanced(initial, l)
    ensures WalletOf(l.wallets, org).balance ==
            WalletOf(initial, org).balance + Credits(l.rows, org) - Stored(l.events, org)
            <==> !HasLate(l, l.events, org)
  {
    forall i | 0 <= i < |l.rows| && l.rows[i].org == org && l.rows[i].event.Some?
      ensures HasEvent(l.events, org, l.rows[i].event.value)
    {
      DebitsAreListed(l.rows, i);
    }
    RowsSplit(l.events, l.rows, org);
    SoundEventsAreStoredAsTaken(l);
    OnlyLateDebitsDiffer(l, l.events, org);
    assert BalancedFor(initial, l, org);
  }

  lemma LateEventAfterCharge(l: Ledger, at: OrgId, key: string, price: nat, e: Event)
    ensures IsLate(Charged(l, at, key, price), e)
            <==> IsLate(l, e) || (e.amount == 0 && e.org == at && e.key == key && Debits(l, at, key, price))
  {
    ChargeDebits(l, at, key, price, e.org, e.key);
  }

  lemma LateAfterCharge(l: Ledger, at: OrgId, key: string, price: nat, org: OrgId)
    requires Sound(l)
    ensures var m := Charged(l, at, key, price);
            HasLate(m, m.events, org) <==> HasLate(l, l.events, org) || ChargesLate(l, Charge(at, key, price), org)
  {
    var m := Charged(l, at, key, price);
    EventCreated(l, at, key, price);
    if HasLate(m, m.events, org) { LateBefore(l, at, key, price, org); }
    if HasLate(l, l.events, org) {
      var i :| 0 <= i < |l.events| && l.events[i].org == org && IsLate(l, l.events[i]);
      LateEventAfterCharge(l, at, key, price, l.events[i]);
      assert m.events[i].org == org && IsLate(m, m.events[i]);
    }
    if ChargesLate(l, Charge(at, key, price), org) {
      var i := FindEvent(l.events, at, key).value;
      LateEventAfterCharge(l, at, key, price, l.events[i]);
      assert m.events[i].org == org && IsLate(m, m.events[i]);
    }
  }

  lemma LateBefore(l: Ledger, at: OrgId, key: string, price: nat, org: OrgId)
    requires Sound(l)
    requires var m := Charged(l, at, key, price); HasLate(m, m.events, org)
    ensures HasLate(l, l.events, org) || ChargesLate(l, Charge(at, key, price), org)
  {
    var m := Charged(l, at, key, price);
    EventCreated(l, at, key, price);
    var i :| 0 <= i < |m.events| && m.events[i].org == org && IsLate(m, m.events[i]);
    LateEventAfterCharge(l, at, key, price, m.events[i]);
    if i < |l.events| {
      assert l.events[i] == m.events[i];
      if !IsLate(l, l.events[i]) { FindsTheEvent(l.events, at, key, i); }
    }
  }

  lemma FindsTheEvent(events: seq<Event>, org: OrgId, key: string, i: nat)
    requires EventsAreDistinct(events) && i < |events| && events[i].org == org && events[i].key == key
    ensures FindEvent(events, org, key) == Some(i)
  {
  }

  lemma LateAfter(l: Ledger, b: Bill, org: OrgId)
    requires Sound(l)
    ensures HasLate(Apply(l, b), Apply(l, b).events, org) <==> HasLate(l, l.events, org) || ChargesLate(l, b, org)
  {
    match b
    case Charge(at, key, price) => LateAfterCharge(l, at, key, price, org);
    case TopUp(at, amount) =>
      if amount > 0 {
        forall e: Event ensures IsLate(Apply(l, b), e) <==> IsLate(l, e) {
          FiltersConcat(l.rows, [Row(at, None, Paid, amount)], e.org, e.key);
          OneRow(Row(at, None, Paid, amount), e.org, e.key);
        }
      }
  }

  /** No bill of the run was a late charge where it was applied. */
  predicate NeverChargesLate(wallets: map<OrgId, Wallet>, bills: seq<Bill>, org: OrgId)
    decreases |bills|
  {
    bills == []
    || (NeverChargesLate(wallets, bills[..|bills| - 1], org)
        && !ChargesLate(ApplyAll(Opened(wallets), bills[..|bills| - 1]), bills[|bills| - 1], org))
  }

  lemma {:induction false} LateAfterAll(wallets: map<OrgId, Wallet>, bills: seq<Bill>, org: OrgId)
    ensures var l := ApplyAll(Opened(wallets), bills);
            HasLate(l, l.events, org) <==> !NeverChargesLate(wallets, bills, org)
    decreases |bills|
  {
    if bills != [] {
      var init := bills[..|bills| - 1];
      LateAfterAll(wallets, init, org);
      EveryRunIsSound(wallets, init);
      LateAfter(ApplyAll(Opened(wallets), init), bills[|bills| - 1], org);
    }
  }

  /** Main result: the wallet is its first balance plus the credits less the stored event amounts exactly
      when no event was stored at no charge and charged afterwards. */
  lemma WalletMatchesStoredAmounts(wallets: map<OrgId, Wallet>, bills: seq<Bill>, org: OrgId)
    ensures var l := ApplyAll(Opened(wallets), bills);
            WalletOf(l.wallets, org).balance ==
              WalletOf(wallets, org).balance + Credits(l.rows, org) - Stored(l.events, org)
            <==> NeverChargesLate(wallets, bills, org)
  {
    EveryRunIsSound(wallets, bills);
    LateAfterAll(wallets, bills, org);
    SoundWallet(wallets, ApplyAll(Opened(wallets), bills), org);
  }

  /** Each key always costs the same. */
  ghost predicate PricesAreStable(bills: seq<Bill>, price: (OrgId, string) -> nat) {
    forall i :: 0 <= i < |bills| && bills[i].Charge? ==> bills[i].price == price(bills[i].org, bills[i].key)
  }

  ghost predicate PricedAs(e: Event, price: (OrgId, string) -> nat) {
    e.amount == price(e.org, e.key)
  }

  lemma {:induction false} StableEvents(wallets: map<OrgId, Wallet>, bills: seq<Bill>, price: (OrgId, string) -> nat)
    requires PricesAreStable(bills, price)
    ensures forall e :: e in ApplyAll(Opened(wallets), bills).events ==> PricedAs(e, price)
    decreases |bills|
  {
    if bills != [] {
      var l, b := ApplyAll(Opened(wallets), bills[..|bills| - 1]), bills[|bills| - 1];
      StableEvents(wallets, bills[..|bills| - 1], price);
      if b.Charge? {
        assert b.price == price(b.org, b.key);
        assert PricedAs(Event(b.org, b.key, b.price), price);
        assert Apply(l, b).events == l.events || Apply(l, b).events == l.events + [Event(b.org, b.key, b.price)];
      }
    }
  }

  /** With stable prices it always is. */
  lemma {:induction false} StablePricesNeverChargeLate(wallets: map<OrgId, Wallet>, bills: seq<Bill>,
                                            price: (OrgId, string) -> nat, org: OrgId)
    requires PricesAreStable(bills, price)
    ensures NeverChargesLate(wallets, bills, org)
    decreases |bills|
  {
    if bills != [] {
      StablePricesNeverChargeLate(wallets, bills[..|bills| - 1], price, org);
      StableEvents(wallets, bills[..|bills| - 1], price);
      var l, b := ApplyAll(Opened(wallets), bills[..|bills| - 1]), bills[|bills| - 1];
      var found := if b.Charge? then FindEvent(l.events, b.org, b.key) else None;
      if found.Some? {
        assert PricedAs(l.events[found.value], price);
      }
    }
  }

  /** A service that billed at nothing and was priced before a second completion under the same key. */
  lemma RepricedKeyIsChargedLate(org: OrgId, key: string, price: nat)
    requires price > 0
    ensures var l := Charged(Charged(Opened(map[]), org, key, 0), org, key, price);
            && Stored(l.events, org) == 0 && Credits(l.rows, org) == 0
            && WalletOf(l.wallets, org).balance == 0 - price
  {
  }

  // ---------------------------------------------------------------- the tables

  class Tables {
    var events: seq<Event>
    var rows: seq<Row>
    var wallets: map<OrgId, Wallet>

    function View(): Ledger
      reads this
    {
      Ledger(events, rows, wallets)
    }

    /** Drains free credit first, then paid credit, one transaction row per bucket touched. */
    method DebitWalletTwoBucket(org: OrgId, amount: nat, key: string)
      modifies `rows, `wallets
      ensures amount == 0 ==> rows == old(rows) && wallets == old(wallets)
      ensures amount > 0 ==>
                && rows == old(rows) + DebitRows(WalletOf(old(wallets), org), org, key, amount)
                && wallets == old(wallets)[org := Debited(WalletOf(old(wallets), org), amount)]
    {
      if amount <= 0 { return; }
      var wallet := if org in wallets then wallets[org] else EMPTY_WALLET;
      var freeAvailable := if wallet.free > 0 then wallet.free else 0;
      var fromFree := if freeAvailable >= amount then amount else freeAvailable;
      var fromPaid := amount - fromFree;
      wallets := wallets[org := Wallet(wallet.free - fromFree, wallet.paid - fromPaid, wallet.balance - amount)];
      if fromFree > 0 { rows := rows + [Row(org, Some(key), Free, 0 - fromFree)]; }
      if fromPaid > 0 { rows := rows + [Row(org, Some(key), Paid, 0 - fromPaid)]; }
    }

    /** The billing part of a completion: upsert the event, then debit unless it was debited. */
    method RecordEvent(org: OrgId, key: string, price: nat)
      modifies this
      ensures View() == Charged(old(View()), org, key, price)
    {
      if FindEvent(events, org, key).None? { events := events + [Event(org, key, price)]; }
      if DebitsOf(rows, org, key) == [] && price > 0 { DebitWalletTwoBucket(org, price, key); }
    }

    method CreditPaidBalance(org: OrgId, amount: int) returns (ok: bool)
      modifies `rows, `wallets
      ensures ok == (amount > 0) && View() == Apply(old(View()), TopUp(org, amount))
    {
      if amount <= 0 { return false; }
      var wallet := if org in wallets then wallets[org] else EMPTY_WALLET;
      wallets := wallets[org := wallet.(paid := wallet.paid + amount, balance := wallet.balance + amount)];
      rows := rows + [Row(org, None, Paid, amount)];
      return true;
    }
  }
}
