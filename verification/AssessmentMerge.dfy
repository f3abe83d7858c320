/** Findings that evaluators record in parallel: each replaces its own earlier finding on a criterion. */
module AssessmentMerge {
  import opened Separators
  import opened Wrappers

  datatype Finding = Finding(evaluator: string, criterion: string, payload: string)

  /** What a stored list may hold: findings, and anything else JSON allows. */
  datatype Item =
    | Row(finding: Finding)
    | Opaque(json: string)

  const NUL: string := ['\U{0}']

  function Key(f: Finding): string {
    f.evaluator + NUL + f.criterion
  }

  // ---------------------------------------------------------------- a JavaScript Map

  datatype Entry = Entry(key: string, value: Finding)

  /** `set`: a known key keeps its place, a new one goes to the end. */
  function Put(entries: seq<Entry>, key: string, value: Finding): seq<Entry> {
    if entries == [] then [Entry(key, value)]
    else if entries[0].key == key then [Entry(key, value)] + entries[1..]
    else [entries[0]] + Put(entries[1..], key, value)
  }

  function EntriesOf(incoming: seq<Finding>): seq<Entry> {
    if incoming == [] then []
    else
      var last := incoming[|incoming| - 1];
      Put(EntriesOf(incoming[..|incoming| - 1]), Key(last), last)
  }

  predicate HasKey(entries: seq<Entry>, key: string) {
    exists i :: 0 <= i < |entries| && entries[i].key == key
  }

  function Values(entries: seq<Entry>): seq<Item> {
    seq(|entries|, i requires 0 <= i < |entries| => Row(entries[i].value))
  }

  // ---------------------------------------------------------------- the merge

  predicate IsReplaced(item: Item, entries: seq<Entry>) {
    item.Row? && HasKey(entries, Key(item.finding))
  }

  function Preserved(items: seq<Item>, entries: seq<Entry>): seq<Item> {
    if items == [] then []
    else
      var rest, last := Preserved(items[..|items| - 1], entries), items[|items| - 1];
      if IsReplaced(last, entries) then rest else rest + [last]
  }

  /** None is an existing value that is no list. */
  function Merge(existing: Option<seq<Item>>, incoming: seq<Finding>): seq<Item> {
    var previous := if existing.Some? then existing.value else [];
    Preserved(previous, EntriesOf(incoming)) + Values(EntriesOf(incoming))
  }

  method MergeAssessmentFindings(existing: Option<seq<Item>>, incoming: seq<Finding>) returns (merged: seq<Item>)
    ensures merged == Merge(existing, incoming)
  {
    var incomingByKey := [];
    var i := 0;
    while i < |incoming|
      invariant 0 <= i <= |incoming| && incomingByKey == EntriesOf(incoming[..i])
    {
      assert incoming[..i + 1][..i] == incoming[..i];
      incomingByKey := Put(incomingByKey, Key(incoming[i]), incoming[i]);
      i := i + 1;
    }
    assert incoming[..i] == incoming;
    var previous := if existing.Some? then existing.value else [];
    var preserved := [];
    i := 0;
    while i < |previous|
      invariant 0 <= i <= |previous| && preserved == Preserved(previous[..i], incomingByKey)
    {
      assert previous[..i + 1][..i] == previous[..i];
      if !IsReplaced(previous[i], incomingByKey) { preserved := preserved + [previous[i]]; }
      i := i + 1;
    }
    assert previous[..i] == previous;
    merged := preserved + Values(incomingByKey);
  }

  // ---------------------------------------------------------------- what a list says

  /** The last finding of every key. */
  function LastOf(items: seq<Item>): map<string, Finding> {
    if items == [] then map[]
    else
      var rest, last := LastOf(items[..|items| - 1]), items[|items| - 1];
      if last.Row? then rest[Key(last.finding) := last.finding] else rest
  }

  function RowsWith(items: seq<Item>, key: string): seq<Item> {
    if items == [] then []
    else
      var rest, last := RowsWith(items[..|items| - 1], key), items[|items| - 1];
      if last.Row? && Key(last.finding) == key then rest + [last] else rest
  }

  function Rows(findings: seq<Finding>): seq<Item> {
    seq(|findings|, i requires 0 <= i < |findings| => Row(findings[i]))
  }

  ghost predicate DistinctKeys(entries: seq<Entry>) {
    forall i, j :: 0 <= i < j < |entries| ==> entries[i].key != entries[j].key
  }

  ghost predicate KeysFit(entries: seq<Entry>) {
    forall i :: 0 <= i < |entries| ==> entries[i].key == Key(entries[i].value)
  }

  ghost predicate IsMapOf(entries: seq<Entry>, m: map<string, Finding>) {
    && DistinctKeys(entries) && KeysFit(entries)
    && (forall k :: k in m <==> HasKey(entries, k))
    && (forall i :: 0 <= i < |entries| ==> entries[i].key in m && m[entries[i].key] == entries[i].value)
  }

  lemma {:induction false} PutShape(entries: seq<Entry>, key: string, value: Finding)
    requires DistinctKeys(entries)
    ensures var r := Put(entries, key, value);
            if HasKey(entries, key)
            then exists k :: 0 <= k < |entries| && entries[k].key == key && r == entries[k := Entry(key, value)]
            else r == entries + [Entry(key, value)]
  {
    if entries != [] {
      if entries[0].key == key {
        assert [Entry(key, value)] + entries[1..] == entries[0 := Entry(key, value)];
      } else {
        var tail := entries[1..];
        PutShape(tail, key, value);
        assert forall i :: 0 <= i < |tail| ==> tail[i] == entries[i + 1];
        if HasKey(tail, key) {
          var k :| 0 <= k < |tail| && tail[k].key == key && Put(tail, key, value) == tail[k := Entry(key, value)];
          assert entries[k + 1].key == key;
          assert [entries[0]] + tail[k := Entry(key, value)] == entries[k + 1 := Entry(key, value)];
        } else {
          assert [entries[0]] + (tail + [Entry(key, value)]) == entries + [Entry(key, value)];
        }
      }
    }
  }

  lemma ReplaceIsMap(entries: seq<Entry>, m: map<string, Finding>, k: nat, f: Finding)
    requires IsMapOf(entries, m) && k < |entries| && entries[k].key == Key(f)
    ensures IsMapOf(entries[k := Entry(Key(f), f)], m[Key(f) := f])
  {
    var r := entries[k := Entry(Key(f), f)];
    assert forall i :: 0 <= i < |r| ==> r[i].key == entries[i].key;
    forall key ensures HasKey(r, key) <==> HasKey(entries, key) {
      if HasKey(entries, key) {
        var i :| 0 <= i < |entries| && entries[i].key == key;
        assert r[i].key == key;
      }
    }
  }

  lemma AppendIsMap(entries: seq<Entry>, m: map<string, Finding>, f: Finding)
    requires IsMapOf(entries, m) && !HasKey(entries, Key(f))
    ensures IsMapOf(entries + [Entry(Key(f), f)], m[Key(f) := f])
  {
    var r := entries + [Entry(Key(f), f)];
    assert forall i :: 0 <= i < |entries| ==> r[i] == entries[i];
    forall key ensures HasKey(r, key) <==> HasKey(entries, key) || key == Key(f) {
      assert r[|entries|].key == Key(f);
      if HasKey(entries, key) {
        var i :| 0 <= i < |entries| && entries[i].key == key;
        assert r[i].key == key;
      }
    }
  }

  lemma PutIsMap(entries: seq<Entry>, m: map<string, Finding>, f: Finding)
    requires IsMapOf(entries, m)
    ensures IsMapOf(Put(entries, Key(f), f), m[Key(f) := f])
  {
    PutShape(entries, Key(f), f);
    if HasKey(entries, Key(f)) {
      var k :| 0 <= k < |entries| && entries[k].key == Key(f) &&
          Put(entries, Key(f), f) == entries[k := Entry(Key(f), f)];
      ReplaceIsMap(entries, m, k, f);
    } else {
      AppendIsMap(entries, m, f);
    }
  }

  /** The entries are the batch's last values, one per key. */
  lemma {:induction false} EntriesAreLast(incoming: seq<Finding>)
    ensures IsMapOf(EntriesOf(incoming), LastOf(Rows(incoming)))
  {
    if incoming != [] {
      var init := incoming[..|incoming| - 1];
      EntriesAreLast(init);
      PutIsMap(EntriesOf(init), LastOf(Rows(init)), incoming[|incoming| - 1]);
      assert Rows(incoming)[..|incoming| - 1] == Rows(init);
    }
  }

  lemma {:induction false} ListsConcat(a: seq<Item>, b: seq<Item>, key: string, entries: seq<Entry>)
    ensures LastOf(a + b) == LastOf(a) + LastOf(b)
    ensures RowsWith(a + b, key) == RowsWith(a, key) + RowsWith(b, key)
    ensures Preserved(a + b, entries) == Preserved(a, entries) + Preserved(b, entries)
  {
    if b == [] {
      assert a + b == a;
    } else {
      assert (a + b)[..|a + b| - 1] == a + b[..|b| - 1];
      ListsConcat(a, b[..|b| - 1], key, entries);
    }
  }

  lemma {:induction false} ValuesWithout(entries: seq<Entry>, n: nat, key: string)
    requires KeysFit(entries) && n <= |entries|
    requires forall i :: 0 <= i < n ==> entries[i].key != key
    ensures RowsWith(Values(entries)[..n], key) == [] && key !in LastOf(Values(entries)[..n])
    decreases n
  {
    if n > 0 {
      assert Values(entries)[..n][..n - 1] == Values(entries)[..n - 1];
      ValuesWithout(entries, n - 1, key);
    }
  }

  lemma {:induction false} ValuesWith(entries: seq<Entry>, n: nat, i: nat)
    requires DistinctKeys(entries) && KeysFit(entries) && i < n <= |entries|
    ensures var part, key := Values(entries)[..n], entries[i].key;
            RowsWith(part, key) == [Row(entries[i].value)] && key in LastOf(part) &&
              LastOf(part)[key] == entries[i].value
    decreases n
  {
    assert Values(entries)[..n][..n - 1] == Values(entries)[..n - 1];
    if i == n - 1 {
      ValuesWithout(entries, n - 1, entries[i].key);
    } else {
      ValuesWith(entries, n - 1, i);
      assert entries[i].key != entries[n - 1].key;
    }
  }

  lemma {:induction false} ValuesAreReplaced(entries: seq<Entry>, n: nat)
    requires KeysFit(entries) && n <= |entries|
    ensures Preserved(Values(entries)[..n], entries) == []
    decreases n
  {
    if n > 0 {
      assert Values(entries)[..n][..n - 1] == Values(entries)[..n - 1];
      ValuesAreReplaced(entries, n - 1);
      assert IsReplaced(Values(entries)[n - 1], entries);
    }
  }

  /** The entries' values, as a list, say what the map says, each key once. */
  lemma ValuesHold(entries: seq<Entry>, m: map<string, Finding>, key: string)
    requires IsMapOf(entries, m)
    ensures RowsWith(Values(entries), key) == if key in m then [Row(m[key])] else []
    ensures AgreeOn(LastOf(Values(entries)), m, key)
    ensures Preserved(Values(entries), entries) == []
  {
    assert Values(entries)[..|entries|] == Values(entries);
    ValuesAreReplaced(entries, |entries|);
    if key in m {
      var i :| 0 <= i < |entries| && entries[i].key == key;
      ValuesWith(entries, |entries|, i);
    } else {
      assert forall i :: 0 <= i < |entries| ==> entries[i].key != key;
      ValuesWithout(entries, |entries|, key);
    }
  }

  /** What two maps say about one key. */
  ghost predicate AgreeOn(m: map<string, Finding>, n: map<string, Finding>, key: string) {
    (key in m <==> key in n) && (key in m ==> m[key] == n[key])
  }

  lemma {:induction false} PreservedHolds(items: seq<Item>, entries: seq<Entry>, key: string)
    ensures RowsWith(Preserved(items, entries), key) == if HasKey(entries, key) then [] else RowsWith(items, key)
    ensures key in LastOf(Preserved(items, entries)) <==> key in LastOf(items) && !HasKey(entries, key)
    ensures key in LastOf(Preserved(items, entries)) ==> LastOf(Preserved(items, entries))[key] == LastOf(items)[key]
    ensures Preserved(Preserved(items, entries), entries) == Preserved(items, entries)
  {
    if items != [] {
      var init, last := items[..|items| - 1], items[|items| - 1];
      PreservedHolds(init, entries, key);
      if !IsReplaced(last, entries) {
        var p := Preserved(init, entries);
        assert (p + [last])[..|p|] == p;
      }
    }
  }

  // ---------------------------------------------------------------- main results

  function Previous(existing: Option<seq<Item>>): seq<Item> {
    if existing.Some? then existing.value else []
  }

  /** Every key of the batch ends up with exactly one row, its last value; the rows of other keys and
      everything that is no finding stay as they were, in order. */
  lemma MergeReplaces(existing: Option<seq<Item>>, incoming: seq<Finding>, key: string)
    ensures var batch, merged := LastOf(Rows(incoming)), Merge(existing, incoming);
            && RowsWith(merged, key) == (if key in batch then [Row(batch[key])] else RowsWith(Previous(existing), key))
            && Preserved(merged, EntriesOf(incoming)) == Preserved(Previous(existing), EntriesOf(incoming))
  {
    var entries, previous := EntriesOf(incoming), Previous(existing);
    EntriesAreLast(incoming);
    ValuesHold(entries, LastOf(Rows(incoming)), key);
    PreservedHolds(previous, entries, key);
    ListsConcat(Preserved(previous, entries), Values(entries), key, entries);
  }

  /** Recording the same batch again changes nothing, not even the order. */
  lemma MergeIsIdempotent(existing: Option<seq<Item>>, incoming: seq<Finding>)
    ensures Merge(Some(Merge(existing, incoming)), incoming) == Merge(existing, incoming)
  {
    MergeReplaces(existing, incoming, "");
  }

  lemma MergeOverridesAt(existing: Option<seq<Item>>, incoming: seq<Finding>, key: string)
    ensures AgreeOn(LastOf(Merge(existing, incoming)), LastOf(Previous(existing)) + LastOf(Rows(incoming)), key)
  {
    var entries, previous := EntriesOf(incoming), Previous(existing);
    EntriesAreLast(incoming);
    ValuesHold(entries, LastOf(Rows(incoming)), key);
    ListsConcat(Preserved(previous, entries), Values(entries), "", entries);
    PreservedHolds(previous, entries, key);
  }

  /** What the merged list says is what the previous one said, overridden by the batch. */
  lemma MergeOverrides(existing: Option<seq<Item>>, incoming: seq<Finding>)
    ensures LastOf(Merge(existing, incoming)) == LastOf(Previous(existing)) + LastOf(Rows(incoming))
  {
    var m, n := LastOf(Merge(existing, incoming)), LastOf(Previous(existing)) + LastOf(Rows(incoming));
    forall key ensures AgreeOn(m, n, key) { MergeOverridesAt(existing, incoming, key); }
    assert forall key :: key in m ==> AgreeOn(m, n, key);
    assert forall key :: key in n ==> AgreeOn(m, n, key);
  }

  // ---------------------------------------------------------------- concurrent evaluators

  /** The session's record: none yet, one whose findings are no list, or a list. */
  datatype Record = NoRecord | Malformed | Findings(items: seq<Item>)

  /** A request by the runner of one agent, whose id the route puts on every finding. */
  datatype Batch = Batch(agent: string, results: seq<Verdict>)

  datatype Verdict = Verdict(criterion: string, payload: string)

  function FindingsOf(b: Batch): seq<Finding> {
    seq(|b.results|, i requires 0 <= i < |b.results| => Finding(b.agent, b.results[i].criterion, b.results[i].payload))
  }

  /** The transaction under the session's lock. The first batch is stored as it is. */
  function Store(record: Record, b: Batch): Record {
    match record
    case NoRecord => Findings(Rows(FindingsOf(b)))
    case Malformed => Findings(Merge(None, FindingsOf(b)))
    case Findings(items) => Findings(Merge(Some(items), FindingsOf(b)))
  }

  function StoreAll(record: Record, batches: seq<Batch>): Record {
    if batches == [] then record else Store(StoreAll(record, batches[..|batches| - 1]), batches[|batches| - 1])
  }

  // ---------------------------------------------------------------- duplicates

  function ItemsOf(record: Record): seq<Item> {
    if record.Findings? then record.items else []
  }

  function KeyAt(b: Batch, i: nat): string
    requires i < |b.results|
  {
    b.agent + NUL + b.results[i].criterion
  }

  ghost predicate Names(b: Batch, key: string) {
    exists i :: 0 <= i < |b.results| && KeyAt(b, i) == key
  }

  ghost predicate RepeatsKey(b: Batch, key: string) {
    exists i, j :: 0 <= i < j < |b.results| && KeyAt(b, i) == key && KeyAt(b, j) == key
  }

  ghost predicate CriteriaDiffer(b: Batch) {
    forall i, j :: 0 <= i < j < |b.results| ==> b.results[i].criterion != b.results[j].criterion
  }

  ghost predicate IsIn(findings: seq<Finding>, key: string) {
    exists i :: 0 <= i < |findings| && Key(findings[i]) == key
  }

  ghost predicate IsTwiceIn(findings: seq<Finding>, key: string) {
    exists i, j :: 0 <= i < j < |findings| && Key(findings[i]) == key && Key(findings[j]) == key
  }

  lemma {:induction false} RowsCount(findings: seq<Finding>, key: string)
    ensures key in LastOf(Rows(findings)) <==> IsIn(findings, key)
    ensures RowsWith(Rows(findings), key) != [] <==> IsIn(findings, key)
    ensures |RowsWith(Rows(findings), key)| > 1 <==> IsTwiceIn(findings, key)
  {
    if findings != [] {
      var init, n := findings[..|findings| - 1], |findings| - 1;
      RowsCount(init, key);
      assert Rows(findings)[..n] == Rows(init);
      InSplits(findings, key);
    }
  }

  lemma InSplits(findings: seq<Finding>, key: string)
    requires findings != []
    ensures var init, last := findings[..|findings| - 1], findings[|findings| - 1];
            && (IsIn(findings, key) <==> IsIn(init, key) || Key(last) == key)
            && (IsTwiceIn(findings, key) <==> IsTwiceIn(init, key) || (IsIn(init, key) && Key(last) == key))
  {
    var init, n := findings[..|findings| - 1], |findings| - 1;
    assert forall i :: 0 <= i < n ==> init[i] == findings[i];
    if IsIn(init, key) {
      var i :| 0 <= i < n && Key(init[i]) == key;
      assert Key(findings[i]) == key && (Key(findings[n]) == key ==> IsTwiceIn(findings, key));
    }
    if IsTwiceIn(init, key) {
      var i, j :| 0 <= i < j < n && Key(init[i]) == key && Key(init[j]) == key;
      assert Key(findings[i]) == key && Key(findings[j]) == key;
    }
  }

  lemma BatchCount(b: Batch, key: string)
    ensures key in LastOf(Rows(FindingsOf(b))) <==> Names(b, key)
    ensures RowsWith(Rows(FindingsOf(b)), key) != [] <==> Names(b, key)
    ensures |RowsWith(Rows(FindingsOf(b)), key)| > 1 <==> RepeatsKey(b, key)
  {
    var findings := FindingsOf(b);
    RowsCount(findings, key);
    forall i | 0 <= i < |b.results| ensures Key(findings[i]) == KeyAt(b, i) {}
    if Names(b, key) {
      var i :| 0 <= i < |b.results| && KeyAt(b, i) == key;
      assert Key(findings[i]) == key;
    }
    if RepeatsKey(b, key) {
      var i, j :| 0 <= i < j < |b.results| && KeyAt(b, i) == key && KeyAt(b, j) == key;
      assert Key(findings[i]) == key && Key(findings[j]) == key;
    }
  }

  /** One request: a key it names has more than one row afterwards exactly when the batch founded the record
      and repeats the key. */
  lemma StoreCounts(record: Record, b: Batch, key: string)
    ensures var rows := RowsWith(ItemsOf(Store(record, b)), key);
            && (Names(b, key) ==> rows != [] && (|rows| > 1 <==> record.NoRecord? && RepeatsKey(b, key)))
            && (!Names(b, key) ==> rows == RowsWith(ItemsOf(record), key))
  {
    BatchCount(b, key);
    match record
    case NoRecord =>
    case Malformed => MergeReplaces(None, FindingsOf(b), key);
    case Findings(items) => MergeReplaces(Some(items), FindingsOf(b), key);
  }

  lemma CriteriaMakeKeys(b: Batch)
    ensures CriteriaDiffer(b) <==> forall key :: !RepeatsKey(b, key)
  {
    forall i, j | 0 <= i < j < |b.results|
      ensures KeyAt(b, i) == KeyAt(b, j) <==> b.results[i].criterion == b.results[j].criterion
    {
      var front := b.agent + NUL;
      assert KeyAt(b, i)[|front|..] == b.results[i].criterion && KeyAt(b, j)[|front|..] == b.results[j].criterion;
    }
    if !CriteriaDiffer(b) {
      var i, j :| 0 <= i < j < |b.results| && b.results[i].criterion == b.results[j].criterion;
      assert RepeatsKey(b, KeyAt(b, i));
    }
  }

  /** Recording replaces instead of accumulating exactly when there is a record already or the batch names no
      criterion twice. */
  lemma RecordingReplacesUnlessFirst(record: Record, b: Batch)
    ensures (forall key :: Names(b, key) ==> |RowsWith(ItemsOf(Store(record, b)), key)| == 1)
            <==> !record.NoRecord? || CriteriaDiffer(b)
  {
    forall key
      ensures Names(b, key) ==>
              (|RowsWith(ItemsOf(Store(record, b)), key)| == 1 <==> !(record.NoRecord? && RepeatsKey(b, key)))
    {
      StoreCounts(record, b, key);
    }
    CriteriaMakeKeys(b);
    if record.NoRecord? && !CriteriaDiffer(b) {
      var key :| RepeatsKey(b, key);
      assert Names(b, key);
    }
  }

  ghost predicate IsNamedLater(batches: seq<Batch>, key: string) {
    exists n :: 1 <= n < |batches| && Names(batches[n], key)
  }

  lemma LaterSplits(batches: seq<Batch>, key: string)
    requires |batches| > 1
    ensures IsNamedLater(batches, key) <==>
            IsNamedLater(batches[..|batches| - 1], key) || Names(batches[|batches| - 1], key)
  {
    var init := batches[..|batches| - 1];
    if IsNamedLater(init, key) {
      var n :| 1 <= n < |init| && Names(init[n], key);
      assert Names(batches[n], key);
    }
    if IsNamedLater(batches, key) {
      var n :| 1 <= n < |batches| && Names(batches[n], key);
      assert n < |init| ==> Names(init[n], key);
    }
  }

  /** Over a whole session: a key has more than one row exactly when the first batch repeats it and no later
      batch names it. */
  lemma {:induction false} DuplicatesStayUntilNamedAgain(batches: seq<Batch>, key: string)
    ensures |RowsWith(ItemsOf(StoreAll(NoRecord, batches)), key)| > 1 <==>
              batches != [] && RepeatsKey(batches[0], key) && !IsNamedLater(batches, key)
  {
    if batches != [] {
      var init, last := batches[..|batches| - 1], batches[|batches| - 1];
      DuplicatesStayUntilNamedAgain(init, key);
      StoreCounts(StoreAll(NoRecord, init), last, key);
      if init == [] {
        BatchCount(last, key);
        assert RepeatsKey(last, key) ==> Names(last, key);
      } else {
        assert init[0] == batches[0];
        LaterSplits(batches, key);
        RecordsStay(NoRecord, init);
      }
    }
  }

  lemma {:induction false} RecordsStay(record: Record, batches: seq<Batch>)
    requires batches != []
    ensures StoreAll(record, batches).Findings?
  {
  }

  /** For instance a criterion named twice in the first batch. */
  lemma FirstBatchKeepsDuplicates(agent: string, criterion: string, x: string, y: string)
    ensures var first := StoreAll(NoRecord, [Batch(agent, [Verdict(criterion, x), Verdict(criterion, y)])]);
            |RowsWith(ItemsOf(first), agent + NUL + criterion)| > 1
  {
    var b := Batch(agent, [Verdict(criterion, x), Verdict(criterion, y)]);
    assert KeyAt(b, 0) == KeyAt(b, 1) == agent + NUL + criterion;
    DuplicatesStayUntilNamedAgain([b], agent + NUL + criterion);
  }

  /** What recording writes, verdict by verdict: the last one on a criterion is stored under the evaluator's name,
      with its payload; and what the batch does not name stays. */
  lemma StoredInFields(record: Record, b: Batch, i: nat, item: Item)
    requires i < |b.results| && forall j :: i < j < |b.results| ==> b.results[j].criterion != b.results[i].criterion
    ensures var now := Store(record, b);
            && now.Findings?
            && Row(Finding(b.agent, b.results[i].criterion, b.results[i].payload)) in now.items
            && (record.Findings? && item in record.items
                && (item.Row? ==> !Names(b, item.finding.evaluator + "\U{0}" + item.finding.criterion)) ==>
                  item in now.items)
  {
    var findings := FindingsOf(b);
    var f := Finding(b.agent, b.results[i].criterion, b.results[i].payload);
    assert findings[i] == f;
    LastVerdictIsLast(b, i);
    match record
    case NoRecord => assert Rows(findings)[i] == Row(f);
    case Malformed => NowHolds(None, findings, f, item);
    case Findings(items) =>
      NowHolds(Some(items), findings, f, item);
      if item in items && (item.Row? ==> !Names(b, Key(item.finding))) { UnnamedStays(items, b, item); }
  }

  lemma LastVerdictIsLast(b: Batch, i: nat)
    requires i < |b.results| && forall j :: i < j < |b.results| ==> b.results[j].criterion != b.results[i].criterion
    ensures var f := FindingsOf(b)[i]; IsLast(FindingsOf(b), f, i)
  {
    var findings := FindingsOf(b);
    forall j | i < j < |findings| ensures Key(findings[j]) != Key(findings[i]) {
      var front := b.agent + NUL;
      assert Key(findings[j])[|front|..] == b.results[j].criterion;
      assert Key(findings[i])[|front|..] == b.results[i].criterion;
    }
  }

  ghost predicate IsLast(findings: seq<Finding>, f: Finding, i: nat) {
    i < |findings| && findings[i] == f && forall j :: i < j < |findings| ==> Key(findings[j]) != Key(f)
  }

  lemma {:induction false} LastOfBatch(findings: seq<Finding>, f: Finding, i: nat)
    requires IsLast(findings, f, i)
    ensures Key(f) in LastOf(Rows(findings)) && LastOf(Rows(findings))[Key(f)] == f
  {
    var n := |findings| - 1;
    assert Rows(findings)[..n] == Rows(findings[..n]);
    if i < n {
      assert IsLast(findings[..n], f, i);
      LastOfBatch(findings[..n], f, i);
    }
  }

  lemma NowHolds(existing: Option<seq<Item>>, findings: seq<Finding>, f: Finding, item: Item)
    requires exists i :: IsLast(findings, f, i)
    ensures Row(f) in Merge(existing, findings)
  {
    var i :| IsLast(findings, f, i);
    LastOfBatch(findings, f, i);
    MergeReplaces(existing, findings, Key(f));
    RowsAreItems(Merge(existing, findings), Key(f));
    assert RowsWith(Merge(existing, findings), Key(f))[0] == Row(f);
  }

  lemma {:induction false} RowsAreItems(items: seq<Item>, key: string)
    ensures forall item :: item in RowsWith(items, key) ==> item in items
  {
    if items != [] {
      RowsAreItems(items[..|items| - 1], key);
      assert items == items[..|items| - 1] + [items[|items| - 1]];
    }
  }

  lemma UnnamedStays(items: seq<Item>, b: Batch, item: Item)
    requires item in items && (item.Row? ==> !Names(b, Key(item.finding)))
    ensures item in Merge(Some(items), FindingsOf(b))
  {
    var entries := EntriesOf(FindingsOf(b));
    if item.Row? {
      EntriesAreLast(FindingsOf(b));
      BatchCount(b, Key(item.finding));
    }
    PreservedItems(items, entries, item);
  }

  lemma {:induction false} PreservedItems(items: seq<Item>, entries: seq<Entry>, item: Item)
    requires item in items && !IsReplaced(item, entries)
    ensures item in Preserved(items, entries)
  {
    if item != items[|items| - 1] {
      assert items == items[..|items| - 1] + [items[|items| - 1]];
      PreservedItems(items[..|items| - 1], entries, item);
    }
  }

  // ---------------------------------------------------------------- any order of requests

  function Says(record: Record): map<string, Finding> {
    if record.Findings? then LastOf(record.items) else map[]
  }

  function BatchesOf(batches: seq<Batch>, agent: string): seq<Batch> {
    if batches == [] then []
    else
      var rest, last := BatchesOf(batches[..|batches| - 1], agent), batches[|batches| - 1];
      if last.agent == agent then rest + [last] else rest
  }

  lemma StoreOverrides(record: Record, b: Batch)
    ensures Says(Store(record, b)) == Says(record) + LastOf(Rows(FindingsOf(b)))
  {
    match record
    case NoRecord =>
    case Malformed => MergeOverrides(None, FindingsOf(b));
    case Findings(items) => MergeOverrides(Some(items), FindingsOf(b));
  }

  ghost predicate IsId(s: string) { '\U{0}' !in s }

  lemma {:induction false} BatchKeys(findings: seq<Finding>, agent: string, key: string)
    requires forall i :: 0 <= i < |findings| ==> findings[i].evaluator == agent
    ensures key in LastOf(Rows(findings)) ==> exists criterion :: key == agent + NUL + criterion
  {
    if findings != [] {
      var init, last := findings[..|findings| - 1], findings[|findings| - 1];
      BatchKeys(init, agent, key);
      assert Rows(findings)[..|findings| - 1] == Rows(init);
      if key == Key(last) { assert key == agent + NUL + last.criterion; }
    }
  }

  lemma OthersSayNothing(b: Batch, agent: string, criterion: string)
    requires IsId(agent) && IsId(b.agent) && b.agent != agent
    ensures agent + NUL + criterion !in LastOf(Rows(FindingsOf(b)))
  {
    var key := agent + NUL + criterion;
    BatchKeys(FindingsOf(b), b.agent, key);
    if key in LastOf(Rows(FindingsOf(b))) {
      var c :| key == b.agent + NUL + c;
      FirstPartIsUnique(NUL[0], agent, criterion, b.agent, c);
    }
  }

  /** One more batch, of the evaluator the key belongs to or of another. */
  lemma OneMoreBatch(all: Record, own: Record, b: Batch, agent: string, criterion: string)
    requires IsId(agent) && IsId(b.agent) && AgreeOn(Says(all), Says(own), agent + NUL + criterion)
    ensures AgreeOn(Says(Store(all, b)), Says(if b.agent == agent then Store(own, b) else own), agent + NUL + criterion)
  {
    StoreOverrides(all, b);
    StoreOverrides(own, b);
    if b.agent != agent { OthersSayNothing(b, agent, criterion); }
  }

  lemma {:induction false} OnlyOwnBatchesMatter(record: Record, batches: seq<Batch>, agent: string, criterion: string)
    requires IsId(agent) && forall i :: 0 <= i < |batches| ==> IsId(batches[i].agent)
    ensures AgreeOn(Says(StoreAll(record, batches)), Says(StoreAll(record, BatchesOf(batches, agent))),
            agent + NUL + criterion)
  {
    if batches != [] {
      var init, last := batches[..|batches| - 1], batches[|batches| - 1];
      OnlyOwnBatchesMatter(record, init, agent, criterion);
      var own := BatchesOf(init, agent);
      OneMoreBatch(StoreAll(record, init), StoreAll(record, own), last, agent, criterion);
      assert (own + [last])[..|own|] == own;
    }
  }

  lemma {:induction false} KeysComeFromBatches(record: Record, batches: seq<Batch>, key: string)
    requires forall i :: 0 <= i < |batches| ==> IsId(batches[i].agent)
    ensures AgreeOn(Says(StoreAll(record, batches)), Says(record), key)
            || exists agent, criterion :: IsId(agent) && key == agent + NUL + criterion
  {
    if batches != [] {
      var init, last := batches[..|batches| - 1], batches[|batches| - 1];
      KeysComeFromBatches(record, init, key);
      StoreOverrides(StoreAll(record, init), last);
      BatchKeys(FindingsOf(last), last.agent, key);
    }
  }

  lemma {:induction false} InterleavingsAgreeOn(record: Record, a: seq<Batch>, b: seq<Batch>, key: string)
    requires forall i :: 0 <= i < |a| ==> IsId(a[i].agent)
    requires forall i :: 0 <= i < |b| ==> IsId(b[i].agent)
    requires forall agent :: BatchesOf(a, agent) == BatchesOf(b, agent)
    ensures AgreeOn(Says(StoreAll(record, a)), Says(StoreAll(record, b)), key)
  {
    var m, n := Says(StoreAll(record, a)), Says(StoreAll(record, b));
    KeysComeFromBatches(record, a, key);
    KeysComeFromBatches(record, b, key);
    if !(AgreeOn(m, Says(record), key) && AgreeOn(n, Says(record), key)) {
      var agent, criterion :| IsId(agent) && key == agent + NUL + criterion;
      OnlyOwnBatchesMatter(record, a, agent, criterion);
      OnlyOwnBatchesMatter(record, b, agent, criterion);
      assert BatchesOf(a, agent) == BatchesOf(b, agent);
    }
  }

  /** However the evaluators' requests interleave, as long as each one's own order is kept the record ends
      up saying the same. */
  lemma {:induction false} InterleavingsAgree(record: Record, a: seq<Batch>, b: seq<Batch>)
    requires forall i :: 0 <= i < |a| ==> IsId(a[i].agent)
    requires forall i :: 0 <= i < |b| ==> IsId(b[i].agent)
    requires forall agent :: BatchesOf(a, agent) == BatchesOf(b, agent)
    ensures Says(StoreAll(record, a)) == Says(StoreAll(record, b))
  {
    var m, n := Says(StoreAll(record, a)), Says(StoreAll(record, b));
    forall key ensures AgreeOn(m, n, key) { InterleavingsAgreeOn(record, a, b, key); }
    assert forall key :: key in m ==> AgreeOn(m, n, key);
    assert forall key :: key in n ==> AgreeOn(m, n, key);
  }
}
