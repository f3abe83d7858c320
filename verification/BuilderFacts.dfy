/** What a batch leaves of one fact, field by field: in the cached list and in the ledger. */
module BuilderFacts {
  import opened Wrappers
  import opened BuilderLedger

  /** The batch's last word on a key. */
  predicate IsLastOn(ops: seq<Operation>, i: nat, key: string) {
    i < |ops| && ops[i].key == key && forall j :: i < j < |ops| ==> ops[j].key != key
  }

  predicate IsNamed(ops: seq<Operation>, key: string) {
    exists j :: 0 <= j < |ops| && ops[j].key == key
  }

  lemma {:induction false} MapAfterBatch(m: FactMap, ops: seq<Operation>, source: MessageId, i: nat, key: string)
    requires IsLastOn(ops, i, key)
    ensures var after, op := ApplyOps(m, ops, source), ops[i];
            && (op.kind == RemoveFact ==> key !in after)
            && (op.kind == SetFact ==>
                  && key in after
                  && after[key] == Fact(key, op.category, if op.value == None then Null else op.value.value,
                                        op.confidence, source))
  {
    var init := ops[..|ops| - 1];
    if i < |ops| - 1 {
      assert IsLastOn(init, i, key);
      MapAfterBatch(m, init, source, i, key);
    }
  }

  lemma {:induction false} UnnamedStays(m: FactMap, ops: seq<Operation>, source: MessageId, key: string)
    requires !IsNamed(ops, key)
    ensures key in ApplyOps(m, ops, source) <==> key in m
    ensures key in m ==> ApplyOps(m, ops, source)[key] == m[key]
  {
    if ops != [] {
      assert forall j :: 0 <= j < |ops| - 1 ==> ops[..|ops| - 1][j] == ops[j];
      UnnamedStays(m, ops[..|ops| - 1], source, key);
    }
  }

  lemma InMap(facts: seq<Fact>, key: string)
    requires DistinctKeys(facts)
    ensures key in MapOf(facts) <==> exists k :: 0 <= k < |facts| && facts[k].key == key
    ensures forall k :: 0 <= k < |facts| && facts[k].key == key ==> key in MapOf(facts) && MapOf(facts)[key] == facts[k]
  {
    if k :| 0 <= k < |facts| && facts[k].key == key { assert facts[k] in facts; }
  }

  /** The cached list after a batch: a set leaves exactly one fact of its key, with the fields of the operation,
      `null` for a value that is not given, and the turn's message as its source; a removal leaves none. */
  lemma CachedFactAfterBatch(current: seq<Fact>, ops: seq<Operation>, source: MessageId, rank: Collation,
                             i: nat, key: string)
    requires DistinctKeys(current) && IsLastOn(ops, i, key)
    ensures var next, op := ApplyOutcome(current, ops, source, rank), ops[i];
            && (op.kind == RemoveFact ==> forall k :: 0 <= k < |next| ==> next[k].key != key)
            && (op.kind == SetFact ==>
                  && (exists k :: 0 <= k < |next| && next[k].key == key)
                  && (forall k, l ::
                        (0 <= k < |next| && 0 <= l < |next| && next[k].key == key && next[l].key == key) ==> k == l)
                  && forall k :: 0 <= k < |next| && next[k].key == key ==>
                       && next[k].category == op.category
                       && next[k].value == (if op.value == None then Null else op.value.value)
                       && next[k].confidence == op.confidence
                       && next[k].source == source)
  {
    ReducerMatchesMap(current, ops, source, rank);
    MapAfterBatch(MapOf(current), ops, source, i, key);
    InMap(ApplyOutcome(current, ops, source, rank), key);
  }

  /** A fact the batch does not name stays as it is, and none of its key appears. */
  lemma CachedFactStays(current: seq<Fact>, ops: seq<Operation>, source: MessageId, rank: Collation, f: Fact)
    requires DistinctKeys(current) && !IsNamed(ops, f.key)
    ensures f in ApplyOutcome(current, ops, source, rank) <==> f in current
  {
    var next := ApplyOutcome(current, ops, source, rank);
    ReducerMatchesMap(current, ops, source, rank);
    UnnamedStays(MapOf(current), ops, source, f.key);
    InMap(next, f.key);
    InMap(current, f.key);
  }

  /** The list goes by category and, within one, by key. */
  lemma CachedFactsAreOrdered(current: seq<Fact>, ops: seq<Operation>, source: MessageId, rank: Collation,
                              k: nat, l: nat)
    requires DistinctKeys(current) && k < l < |ApplyOutcome(current, ops, source, rank)|
    ensures var a, b := ApplyOutcome(current, ops, source, rank)[k], ApplyOutcome(current, ops, source, rank)[l];
            rank(a.category) < rank(b.category)
            || (rank(a.category) == rank(b.category) && rank(a.key) <= rank(b.key))
  {
    ReducerMatchesMap(current, ops, source, rank);
  }

  lemma InRows(rows: seq<FactRow>, key: string)
    requires OneActivePerKey(rows)
    ensures key in ActiveMap(rows) <==>
            exists k :: 0 <= k < |rows| && rows[k].status == Active && rows[k].fact.key == key
    ensures forall k :: 0 <= k < |rows| && rows[k].status == Active && rows[k].fact.key == key ==>
              key in ActiveMap(rows) && ActiveMap(rows)[key] == rows[k].fact
  {
    ActiveMapHoldsActiveRows(rows, key);
    if k :| 0 <= k < |rows| && rows[k].status == Active && rows[k].fact.key == key { assert Live(rows[k], key); }
    if k :| 0 <= k < |rows| && Live(rows[k], key) { assert rows[k].status == Active && rows[k].fact.key == key; }
  }

  /** The active rows after a batch, likewise. */
  lemma ActiveRowAfterBatch(rows: seq<FactRow>, ops: seq<Operation>, source: MessageId, i: nat, key: string)
    requires LedgerOk(rows) && IsLastOn(ops, i, key)
    ensures var next, op := LedgerOps(rows, ops, source), ops[i];
            && (op.kind == RemoveFact ==>
                  forall k :: 0 <= k < |next| && next[k].fact.key == key ==> next[k].status != Active)
            && (op.kind == SetFact ==>
                  && (exists k :: 0 <= k < |next| && next[k].status == Active && next[k].fact.key == key)
                  && (forall k, l ::
                        (0 <= k < |next| && 0 <= l < |next| && next[k].status == next[l].status == Active
                         && next[k].fact.key == key && next[l].fact.key == key) ==> k == l)
                  && forall k :: 0 <= k < |next| && next[k].status == Active && next[k].fact.key == key ==>
                       && next[k].fact.category == op.category
                       && next[k].fact.value == (if op.value == None then Null else op.value.value)
                       && next[k].fact.confidence == op.confidence
                       && next[k].fact.source == source)
  {
    LedgerFollowsBatch(rows, ops, source);
    MapAfterBatch(ActiveMap(rows), ops, source, i, key);
    InRows(LedgerOps(rows, ops, source), key);
  }

  /** Rows are never changed but in their status, and that only from active on; one the batch does not name
      keeps it. */
  lemma {:induction false} RowsKeepTheirFacts(rows: seq<FactRow>, ops: seq<Operation>, source: MessageId)
    ensures var next := LedgerOps(rows, ops, source);
            && |rows| <= |next|
            && forall k :: 0 <= k < |rows| ==>
                 && next[k].fact == rows[k].fact && next[k].supersedes == rows[k].supersedes
                 && (rows[k].status != Active || !IsNamed(ops, rows[k].fact.key) ==> next[k].status == rows[k].status)
  {
    if ops != [] {
      var init, op := ops[..|ops| - 1], ops[|ops| - 1];
      RowsKeepTheirFacts(rows, init, source);
      LedgerOpShape(LedgerOps(rows, init, source), op, source);
      forall key | !IsNamed(ops, key) ensures !IsNamed(init, key) && op.key != key {
        assert forall j :: 0 <= j < |init| ==> init[j] == ops[j];
      }
    }
  }
}
