/** The requirement facts of one builder conversation: the ledger rows, the list the session row
    caches, and the events both can be rebuilt from. */
module BuilderLedger {
  import opened Wrappers
  import opened StableSort

  datatype Json = Null | Data(text: string)

  /** Messages are named by their sequence number, which is unique in a conversation. */
  type MessageId = nat

  datatype Fact = Fact(key: string, category: string, value: Json, confidence: real, source: MessageId)

  datatype OpKind = SetFact | RemoveFact

  datatype Operation = Operation(kind: OpKind, key: string, category: string, value: Option<Json>, confidence: real)

  function FactOf(op: Operation, source: MessageId): Fact {
    Fact(op.key, op.category, if op.value.Some? then op.value.value else Null, op.confidence, source)
  }

  // ---------------------------------------------------------------- what a batch means

  type FactMap = map<string, Fact>

  function ApplyOp(m: FactMap, op: Operation, source: MessageId): FactMap {
    if op.kind.RemoveFact? then m - {op.key} else m[op.key := FactOf(op, source)]
  }

  function ApplyOps(m: FactMap, ops: seq<Operation>, source: MessageId): FactMap {
    if ops == [] then m
    else ApplyOp(ApplyOps(m, ops[..|ops| - 1], source), ops[|ops| - 1], source)
  }

  // ---------------------------------------------------------------- the cached list

  /** A JavaScript `Map` keeps insertion order: a new value for a known key stays in its place. */
  function Put(entries: seq<Fact>, f: Fact): seq<Fact> {
    if entries == [] then [f]
    else if entries[0].key == f.key then [f] + entries[1..]
    else [entries[0]] + Put(entries[1..], f)
  }

  function Delete(entries: seq<Fact>, key: string): seq<Fact> {
    if entries == [] then []
    else (if entries[0].key == key then [] else [entries[0]]) + Delete(entries[1..], key)
  }

  function Dictionary(facts: seq<Fact>): seq<Fact> {
    if facts == [] then [] else Put(Dictionary(facts[..|facts| - 1]), facts[|facts| - 1])
  }

  function Update(entries: seq<Fact>, op: Operation, source: MessageId): seq<Fact> {
    if op.kind.RemoveFact? then Delete(entries, op.key) else Put(entries, FactOf(op, source))
  }

  function UpdateAll(entries: seq<Fact>, ops: seq<Operation>, source: MessageId): seq<Fact> {
    if ops == [] then entries
    else Update(UpdateAll(entries, ops[..|ops| - 1], source), ops[|ops| - 1], source)
  }

  /** `localeCompare` is some total preorder on strings; any such order on a countable set is the
      order of a real-valued rank. */
  type Collation = string -> real

  function FactOrder(rank: Collation): (Fact, Fact) -> bool {
    (a: Fact, b: Fact) =>
      rank(a.category) < rank(b.category)
      || (rank(a.category) == rank(b.category) && rank(a.key) <= rank(b.key))
  }

  function ApplyOutcome(current: seq<Fact>, ops: seq<Operation>, source: MessageId, rank: Collation): seq<Fact> {
    Sort(FactOrder(rank), UpdateAll(Dictionary(current), ops, source))
  }

  /** The reducer the session row is rewritten with. */
  method ApplyOutcomeToFacts(current: seq<Fact>, ops: seq<Operation>, source: MessageId, rank: Collation)
    returns (next: seq<Fact>)
    ensures next == ApplyOutcome(current, ops, source, rank)
  {
    var byKey: seq<Fact> := [];
    for i := 0 to |current|
      invariant byKey == Dictionary(current[..i])
    {
      assert current[..i + 1][..i] == current[..i];
      byKey := Put(byKey, current[i]);
    }
    assert current[..|current|] == current;
    ghost var start := byKey;
    for i := 0 to |ops|
      invariant byKey == UpdateAll(start, ops[..i], source)
    {
      assert ops[..i + 1][..i] == ops[..i];
      if ops[i].kind.RemoveFact? {
        byKey := Delete(byKey, ops[i].key);
      } else {
        byKey := Put(byKey, FactOf(ops[i], source));
      }
    }
    assert ops[..|ops|] == ops;
    next := Sort(FactOrder(rank), byKey);
  }

  ghost predicate DistinctKeys(facts: seq<Fact>) {
    forall i, j :: 0 <= i < j < |facts| ==> facts[i].key != facts[j].key
  }

  /** The map a list without repeated keys stands for. */
  ghost function MapOf(facts: seq<Fact>): FactMap
    requires DistinctKeys(facts)
  {
    map f <- facts :: f.key := f
  }

  lemma {:induction false} PutKeeps(entries: seq<Fact>, f: Fact)
    requires DistinctKeys(entries)
    ensures DistinctKeys(Put(entries, f))
    ensures forall g :: g in Put(entries, f) <==> g == f || (g in entries && g.key != f.key)
  {
    if entries != [] {
      assert entries == [entries[0]] + entries[1..];
      if entries[0].key != f.key { PutKeeps(entries[1..], f); }
    }
  }

  lemma {:induction false} DeleteKeeps(entries: seq<Fact>, key: string)
    requires DistinctKeys(entries)
    ensures DistinctKeys(Delete(entries, key))
    ensures forall g :: g in Delete(entries, key) <==> g in entries && g.key != key
  {
    if entries != [] {
      assert entries == [entries[0]] + entries[1..];
      DeleteKeeps(entries[1..], key);
    }
  }

  lemma {:induction false} DictionaryKeeps(facts: seq<Fact>)
    ensures DistinctKeys(Dictionary(facts))
    ensures DistinctKeys(facts) ==> Dictionary(facts) == facts
  {
    if facts != [] {
      var init := facts[..|facts| - 1];
      DictionaryKeeps(init);
      PutKeeps(Dictionary(init), facts[|facts| - 1]);
      if DistinctKeys(facts) {
        assert forall i :: 0 <= i < |init| ==> init[i] == facts[i];
        PutFresh(init, facts[|facts| - 1]);
        assert init + [facts[|facts| - 1]] == facts;
      }
    }
  }

  lemma {:induction false} PutFresh(entries: seq<Fact>, f: Fact)
    requires forall g :: g in entries ==> g.key != f.key
    ensures Put(entries, f) == entries + [f]
  {
    if entries != [] {
      assert entries[0] in entries;
      PutFresh(entries[1..], f);
      assert entries == [entries[0]] + entries[1..];
    }
  }

  lemma {:induction false} UpdateAllKeeps(entries: seq<Fact>, ops: seq<Operation>, source: MessageId)
    requires DistinctKeys(entries)
    ensures DistinctKeys(UpdateAll(entries, ops, source))
    ensures MapOf(UpdateAll(entries, ops, source)) == ApplyOps(MapOf(entries), ops, source)
  {
    if ops != [] {
      var before := UpdateAll(entries, ops[..|ops| - 1], source);
      var op := ops[|ops| - 1];
      UpdateAllKeeps(entries, ops[..|ops| - 1], source);
      if op.kind.RemoveFact? { DeleteKeeps(before, op.key); } else { PutKeeps(before, FactOf(op, source)); }
    }
  }

  lemma FactOrderIsPreorder(rank: Collation)
    ensures TotalPreorder(FactOrder(rank))
  {
  }

  lemma {:induction false} SortKeepsKeys(rank: Collation, facts: seq<Fact>)
    requires DistinctKeys(facts)
    ensures DistinctKeys(Sort(FactOrder(rank), facts))
    ensures MapOf(Sort(FactOrder(rank), facts)) == MapOf(facts)
  {
    var le := FactOrder(rank);
    FactOrderIsPreorder(rank);
    SortIsStable(le, facts);
    var sorted := Sort(le, facts);
    assert forall f :: f in sorted <==> f in multiset(sorted);
    assert forall f :: f in facts <==> f in multiset(facts);
    DistinctFromMultiset(facts, sorted);
  }

  lemma {:induction false} DistinctFromMultiset(a: seq<Fact>, b: seq<Fact>)
    requires DistinctKeys(a) && multiset(a) == multiset(b)
    ensures DistinctKeys(b)
  {
    forall i, j | 0 <= i < j < |b| ensures b[i].key != b[j].key {
      assert b[i] in multiset(a) && b[j] in multiset(a);
      var i' :| 0 <= i' < |a| && a[i'] == b[i];
      var j' :| 0 <= j' < |a| && a[j'] == b[j];
      if i' == j' {
        TwiceInMultiset(b, i, j);
        OnceInMultiset(a, i');
        assert false;
      }
    }
  }

  lemma TwiceInMultiset(b: seq<Fact>, i: nat, j: nat)
    requires i < j < |b| && b[i] == b[j]
    ensures multiset(b)[b[i]] >= 2
  {
    assert b == b[..j] + [b[j]] + b[j + 1..];
    assert b[i] in b[..j];
  }

  lemma OnceInMultiset(a: seq<Fact>, i: nat)
    requires DistinctKeys(a) && i < |a|
    ensures multiset(a)[a[i]] == 1
  {
    assert a == a[..i] + [a[i]] + a[i + 1..];
    assert a[i] !in a[..i] && a[i] !in a[i + 1..];
  }

  /** The cached list is an ordered picture of exactly the map the batch leads to. */
  lemma {:induction false} ReducerMatchesMap(current: seq<Fact>, ops: seq<Operation>, source: MessageId,
                                        rank: Collation)
    requires DistinctKeys(current)
    ensures var next := ApplyOutcome(current, ops, source, rank);
            && DistinctKeys(next)
            && MapOf(next) == ApplyOps(MapOf(current), ops, source)
            && Sorted(FactOrder(rank), next)
  {
    DictionaryKeeps(current);
    UpdateAllKeeps(current, ops, source);
    SortKeepsKeys(rank, UpdateAll(current, ops, source));
    FactOrderIsPreorder(rank);
    SortIsStable(FactOrder(rank), UpdateAll(current, ops, source));
  }

  // ---------------------------------------------------------------- the ledger rows

  datatype Status = Active | Superseded | Rejected

  /** A row is named by its position: rows are only ever appended. */
  datatype FactRow = FactRow(fact: Fact, status: Status, supersedes: Option<nat>)

  predicate Live(row: FactRow, key: string) {
    row.status.Active? && row.fact.key == key
  }

  /** The newest active row of a key. */
  function FindActive(rows: seq<FactRow>, key: string): Option<nat> {
    if rows == [] then None
    else if Live(rows[|rows| - 1], key) then Some(|rows| - 1)
    else FindActive(rows[..|rows| - 1], key)
  }

  function Retire(rows: seq<FactRow>, key: string, status: Status): seq<FactRow> {
    seq(|rows|, i requires 0 <= i < |rows| => if Live(rows[i], key) then rows[i].(status := status) else rows[i])
  }

  function LedgerOp(rows: seq<FactRow>, op: Operation, source: MessageId): seq<FactRow> {
    var previous := FindActive(rows, op.key);
    var retired :=
      if previous.Some? then Retire(rows, op.key, if op.kind.RemoveFact? then Rejected else Superseded) else rows;
    if op.kind.SetFact? then retired + [FactRow(FactOf(op, source), Active, previous)] else retired
  }

  function LedgerOps(rows: seq<FactRow>, ops: seq<Operation>, source: MessageId): seq<FactRow> {
    if ops == [] then rows
    else LedgerOp(LedgerOps(rows, ops[..|ops| - 1], source), ops[|ops| - 1], source)
  }

  ghost predicate OneActivePerKey(rows: seq<FactRow>) {
    forall i, j :: 0 <= i < j < |rows| && rows[i].status.Active? && rows[j].status.Active?
      ==> rows[i].fact.key != rows[j].fact.key
  }

  ghost predicate Supersedes(rows: seq<FactRow>, newer: nat, older: nat) {
    newer < |rows| && rows[newer].supersedes == Some(older)
  }

  /** `supersedes` is a one-to-one map onto the superseded rows, back in time and within a key. */
  ghost predicate ChainsOk(rows: seq<FactRow>) {
    && (forall j: nat, i: nat :: Supersedes(rows, j, i) ==>
          i < j && rows[i].status.Superseded? && rows[i].fact.key == rows[j].fact.key)
    && (forall j: nat, k: nat, i: nat :: Supersedes(rows, j, i) && Supersedes(rows, k, i) ==> j == k)
    && (forall i: nat :: i < |rows| && rows[i].status.Superseded? ==> exists j: nat :: Supersedes(rows, j, i))
  }

  ghost predicate LedgerOk(rows: seq<FactRow>) {
    OneActivePerKey(rows) && ChainsOk(rows)
  }

  /** The facts of the active rows by key, the newest row winning. */
  ghost function ActiveMap(rows: seq<FactRow>): FactMap {
    if rows == [] then map[]
    else
      var earlier, last := ActiveMap(rows[..|rows| - 1]), rows[|rows| - 1];
      if last.status.Active? then earlier[last.fact.key := last.fact] else earlier
  }

  lemma {:induction false} ActiveMapHoldsActiveRows(rows: seq<FactRow>, key: string)
    ensures key in ActiveMap(rows) <==> exists i :: 0 <= i < |rows| && Live(rows[i], key)
    ensures OneActivePerKey(rows) ==>
              forall i :: 0 <= i < |rows| && Live(rows[i], key) ==> ActiveMap(rows)[key] == rows[i].fact
  {
    if rows != [] {
      var init := rows[..|rows| - 1];
      ActiveMapHoldsActiveRows(init, key);
      assert forall i :: 0 <= i < |init| ==> init[i] == rows[i];
    }
  }

  lemma {:induction false} FindActiveFinds(rows: seq<FactRow>, key: string)
    ensures var r := FindActive(rows, key);
            && (r.Some? ==> r.value < |rows| && Live(rows[r.value], key))
            && (r.None? ==> forall i :: 0 <= i < |rows| ==> !Live(rows[i], key))
  {
    if rows != [] && !Live(rows[|rows| - 1], key) {
      FindActiveFinds(rows[..|rows| - 1], key);
      assert forall i :: 0 <= i < |rows| - 1 ==> rows[i] == rows[..|rows| - 1][i];
    }
  }

  /** What one operation does to the rows, row by row. */
  lemma LedgerOpShape(rows: seq<FactRow>, op: Operation, source: MessageId)
    ensures var next := LedgerOp(rows, op, source);
            && |rows| <= |next| == |rows| + (if op.kind.SetFact? then 1 else 0)
            && (forall i :: 0 <= i < |rows| ==>
                  && next[i].fact == rows[i].fact
                  && next[i].supersedes == rows[i].supersedes
                  && (next[i].status.Active? <==> rows[i].status.Active? && rows[i].fact.key != op.key))
            && (op.kind.SetFact? ==>
                  next[|rows|] == FactRow(FactOf(op, source), Active, FindActive(rows, op.key)))
  {
    FindActiveFinds(rows, op.key);
  }

  lemma {:induction false} RetireRemovesKey(rows: seq<FactRow>, key: string, status: Status)
    requires !status.Active?
    ensures ActiveMap(Retire(rows, key, status)) == ActiveMap(rows) - {key}
  {
    if rows != [] {
      RetireRemovesKey(rows[..|rows| - 1], key, status);
      var next := Retire(rows, key, status);
      assert next[..|next| - 1] == Retire(rows[..|rows| - 1], key, status);
    }
  }

  /** One active row per key is kept, and the active rows move as the operation means. */
  lemma LedgerOpKeepsKeys(rows: seq<FactRow>, op: Operation, source: MessageId)
    ensures OneActivePerKey(rows) ==> OneActivePerKey(LedgerOp(rows, op, source))
    ensures ActiveMap(LedgerOp(rows, op, source)) == ApplyOp(ActiveMap(rows), op, source)
  {
    LedgerOpShape(rows, op, source);
    var previous := FindActive(rows, op.key);
    var status := if op.kind.RemoveFact? then Rejected else Superseded;
    var retired := if previous.Some? then Retire(rows, op.key, status) else rows;
    if previous.Some? {
      RetireRemovesKey(rows, op.key, status);
    } else {
      FindActiveFinds(rows, op.key);
      ActiveMapHoldsActiveRows(rows, op.key);
      assert ActiveMap(rows) - {op.key} == ActiveMap(rows);
    }
    if op.kind.SetFact? {
      var row := FactRow(FactOf(op, source), Active, previous);
      assert (retired + [row])[..|retired|] == retired;
    }
  }

  lemma LedgerOpKeepsChains(rows: seq<FactRow>, op: Operation, source: MessageId)
    requires LedgerOk(rows)
    ensures ChainsOk(LedgerOp(rows, op, source))
  {
    FindActiveFinds(rows, op.key);
    var previous := FindActive(rows, op.key);
    var next := LedgerOp(rows, op, source);
    assert forall i :: 0 <= i < |rows| ==> next[i].supersedes == rows[i].supersedes && next[i].fact == rows[i].fact;
    assert forall j: nat, i: nat :: j < |rows| ==> (Supersedes(next, j, i) <==> Supersedes(rows, j, i));
    forall i: nat | i < |next| && next[i].status.Superseded? ensures exists j: nat :: Supersedes(next, j, i) {
      if rows[i].status.Superseded? {
        var j: nat :| Supersedes(rows, j, i);
        assert Supersedes(next, j, i);
      } else {
        assert previous == Some(i);
        assert Supersedes(next, |rows|, i);
      }
    }
  }

  /** A batch keeps one active row per key and the history chains, however often it names a key,
      and moves the active rows exactly as the batch means. */
  lemma {:induction false} LedgerFollowsBatch(rows: seq<FactRow>, ops: seq<Operation>, source: MessageId)
    requires LedgerOk(rows)
    ensures LedgerOk(LedgerOps(rows, ops, source))
    ensures ActiveMap(LedgerOps(rows, ops, source)) == ApplyOps(ActiveMap(rows), ops, source)
  {
    if ops != [] {
      var before := LedgerOps(rows, ops[..|ops| - 1], source);
      LedgerFollowsBatch(rows, ops[..|ops| - 1], source);
      LedgerOpKeepsKeys(before, ops[|ops| - 1], source);
      LedgerOpKeepsChains(before, ops[|ops| - 1], source);
    }
  }

  // ---------------------------------------------------------------- history

  /** A row and everything it replaced, newest first. */
  ghost function History(rows: seq<FactRow>, i: nat): seq<nat>
    requires ChainsOk(rows) && i < |rows|
  {
    if rows[i].supersedes.None? then [i]
    else
      var older := rows[i].supersedes.value;
      assert Supersedes(rows, i, older);
      [i] + History(rows, older)
  }

  /** No row goes missing: each lies in the history of a row nothing has replaced. */
  lemma {:induction false} EveryRowHasAHead(rows: seq<FactRow>, i: nat) returns (head: nat)
    requires ChainsOk(rows) && i < |rows|
    ensures head < |rows| && !rows[head].status.Superseded? && i in History(rows, head)
    decreases |rows| - i
  {
    if !rows[i].status.Superseded? {
      head := i;
    } else {
      var j: nat :| Supersedes(rows, j, i);
      head := EveryRowHasAHead(rows, j);
      HistoryIsClosed(rows, head, j, i);
    }
  }

  lemma {:induction false} HistoryIsClosed(rows: seq<FactRow>, head: nat, j: nat, i: nat)
    requires ChainsOk(rows) && head < |rows| && Supersedes(rows, j, i) && j in History(rows, head)
    ensures i in History(rows, head)
  {
    if j == head {
      assert History(rows, head)[1..][0] == i;
    } else {
      HistoryIsClosed(rows, rows[head].supersedes.value, j, i);
    }
  }

  /** Histories of different heads never meet, so a rejected row starts the history it is in and
      nothing replaces it. */
  lemma {:induction false} HistoriesAreDisjoint(rows: seq<FactRow>, a: nat, b: nat, i: nat)
    requires ChainsOk(rows) && a < |rows| && b < |rows|
    requires !rows[a].status.Superseded? && !rows[b].status.Superseded?
    requires i in History(rows, a) && i in History(rows, b)
    ensures a == b
    decreases |rows| - i
  {
    if i == a {
      HeadHasNoSuccessor(rows, b, i);
    } else if i == b {
      HeadHasNoSuccessor(rows, a, i);
    } else {
      var j := Successor(rows, a, i);
      var k := Successor(rows, b, i);
      HistoriesAreDisjoint(rows, a, b, j);
    }
  }

  lemma {:induction false} Successor(rows: seq<FactRow>, head: nat, i: nat) returns (j: nat)
    requires ChainsOk(rows) && head < |rows| && i in History(rows, head) && i != head
    ensures Supersedes(rows, j, i) && j in History(rows, head) && i < j
  {
    var older := rows[head].supersedes.value;
    assert Supersedes(rows, head, older);
    if i == older { j := head; } else { j := Successor(rows, older, i); }
  }

  lemma HeadHasNoSuccessor(rows: seq<FactRow>, head: nat, i: nat)
    requires ChainsOk(rows) && head < |rows| && i in History(rows, head) && i < |rows|
    requires !rows[i].status.Superseded?
    ensures i == head
  {
  }

  lemma {:induction false} HistoryKeepsKey(rows: seq<FactRow>, head: nat, i: nat)
    requires ChainsOk(rows) && head < |rows| && i in History(rows, head)
    ensures i <= head && rows[i].fact.key == rows[head].fact.key
  {
    if i != head {
      assert Supersedes(rows, head, rows[head].supersedes.value);
      HistoryKeepsKey(rows, rows[head].supersedes.value, i);
    }
  }

  /** Every step of a history goes back in time. */
  lemma {:induction false} HistoriesRunBackInTime(rows: seq<FactRow>, head: nat, j: nat, k: nat)
    requires ChainsOk(rows) && head < |rows| && j < k < |History(rows, head)|
    ensures History(rows, head)[j] > History(rows, head)[k]
  {
    var older := rows[head].supersedes.value;
    assert Supersedes(rows, head, older);
    if j == 0 {
      HistoryKeepsKey(rows, older, History(rows, older)[k - 1]);
    } else {
      HistoriesRunBackInTime(rows, older, j - 1, k - 1);
    }
  }
}
