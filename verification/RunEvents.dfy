/** The event log of agent runs: concurrent appenders number events under a lock held to commit, and
    readers page through the numbers. */
module RunEvents {

  type RunId = nat

  type AppenderId = nat

  type ReaderId = nat

  datatype Event = Event(kind: string, data: string)

  /** Committed rows; a run's rows are told apart by their sequence number. */
  type Rows = map<(RunId, int), Event>

  datatype Appender =
    | Waiting(run: RunId, event: Event)
    | Holding(run: RunId, event: Event)
    | Read(run: RunId, event: Event, max: int)
    | Inserted(run: RunId, event: Event, sequence: int)   // visible to its own transaction only
    | Appended(run: RunId, sequence: int)
    | Aborted

  datatype Numbered = Numbered(sequence: int, event: Event)

  /** `after` is the last number the reader has seen, -1 at first. */
  datatype Reader = Reader(run: RunId, after: int, received: seq<Numbered>)

  datatype State = State(rows: Rows, locks: map<RunId, AppenderId>, appenders: map<AppenderId, Appender>,
                         readers: map<ReaderId, Reader>)

  const EMPTY := State(map[], map[], map[], map[])

  datatype Action =
    | Begin(a: AppenderId, run: RunId, event: Event)
    | Lock(a: AppenderId)
    | ReadMax(a: AppenderId, max: int)
    | Insert(a: AppenderId)
    | Commit(a: AppenderId)
    | Abort(a: AppenderId)
    | Subscribe(r: ReaderId, ofRun: RunId)
    | Poll(r: ReaderId, page: seq<Numbered>)

  /** The aggregate a transaction reads: the largest number, or -1 when there is none. */
  ghost predicate IsMax(rows: Rows, run: RunId, max: int) {
    && (forall k :: (run, k) in rows ==> k <= max)
    && (max == -1 || (run, max) in rows)
  }

  /** Everything after a number, in order. */
  ghost predicate IsPage(rows: Rows, run: RunId, after: int, page: seq<Numbered>) {
    && (forall i, j :: 0 <= i < j < |page| ==> page[i].sequence < page[j].sequence)
    && (forall i :: 0 <= i < |page| ==>
          page[i].sequence > after && (run, page[i].sequence) in rows && rows[(run, page[i].sequence)] == page[i].event)
    && (forall k :: k > after && (run, k) in rows ==> exists i :: 0 <= i < |page| && page[i].sequence == k)
  }

  function LastOf(after: int, page: seq<Numbered>): int {
    if page == [] then after else page[|page| - 1].sequence
  }

  ghost function Step(s: State, x: Action): State {
    match x
    case Begin(a, run, event) =>
      if a in s.appenders then s else s.(appenders := s.appenders[a := Waiting(run, event)])
    case Subscribe(r, run) =>
      if r in s.readers then s else s.(readers := s.readers[r := Reader(run, -1, [])])
    case Poll(r, page) =>
      if r !in s.readers || !IsPage(s.rows, s.readers[r].run, s.readers[r].after, page) then s
      else
        var reader := s.readers[r];
        s.(readers := s.readers[r := Reader(reader.run, LastOf(reader.after, page), reader.received + page)])
    case _ => if x.a !in s.appenders then s else AppenderStep(s, x, x.a, s.appenders[x.a])
  }

  ghost function AppenderStep(s: State, x: Action, a: AppenderId, p: Appender): State {
    match x
    case Lock(_) =>
      if !p.Waiting? || p.run in s.locks then s
      else s.(locks := s.locks[p.run := a], appenders := s.appenders[a := Holding(p.run, p.event)])
    case ReadMax(_, max) =>
      if !p.Holding? || !IsMax(s.rows, p.run, max) then s
      else s.(appenders := s.appenders[a := Read(p.run, p.event, max)])
    case Insert(_) =>
      if !p.Read? then s else s.(appenders := s.appenders[a := Inserted(p.run, p.event, p.max + 1)])
    case Commit(_) =>
      if !p.Inserted? then s
      else if (p.run, p.sequence) in s.rows then s.(locks := s.locks - {p.run}, appenders := s.appenders[a := Aborted])
      else
        s.(rows := s.rows[(p.run, p.sequence) := p.event],
           locks := s.locks - {p.run},
           appenders := s.appenders[a := Appended(p.run, p.sequence)])
    case Abort(_) =>
      if p.Waiting? then s.(appenders := s.appenders[a := Aborted])
      else if p.Holding? || p.Read? || p.Inserted? then
        s.(locks := s.locks - {p.run}, appenders := s.appenders[a := Aborted])
      else s
    case _ => s
  }

  ghost function RunSteps(s: State, xs: seq<Action>): State {
    if xs == [] then s else Step(RunSteps(s, xs[..|xs| - 1]), xs[|xs| - 1])
  }

  // ---------------------------------------------------------------- in fields

  /** How an appender gets to its number: it waits for the run's lock, reads the largest number under it, writes the
      next one, and shows it when it commits; the lock is held until then. */
  lemma AppendingInFields(s: State, a: AppenderId, run: RunId, event: Event, max: int)
    ensures a !in s.appenders ==>
              Step(s, Begin(a, run, event)) == s.(appenders := s.appenders[a := Waiting(run, event)])
    ensures a in s.appenders && s.appenders[a] == Waiting(run, event) && run !in s.locks ==>
              Step(s, Lock(a))
              == State(s.rows, s.locks[run := a], s.appenders[a := Holding(run, event)], s.readers)
    ensures a in s.appenders && s.appenders[a] == Waiting(run, event) && run in s.locks ==> Step(s, Lock(a)) == s
    ensures a in s.appenders && s.appenders[a] == Holding(run, event)
            && (forall k :: (run, k) in s.rows ==> k <= max) && (max == -1 || (run, max) in s.rows) ==>
              Step(s, ReadMax(a, max)) == s.(appenders := s.appenders[a := Read(run, event, max)])
    ensures a in s.appenders && s.appenders[a] == Read(run, event, max) ==>
              Step(s, Insert(a)) == s.(appenders := s.appenders[a := Inserted(run, event, max + 1)])
    ensures a in s.appenders && s.appenders[a] == Inserted(run, event, max + 1) && (run, max + 1) !in s.rows ==>
              Step(s, Commit(a))
              == State(s.rows[(run, max + 1) := event], s.locks - {run}, s.appenders[a := Appended(run, max + 1)],
                       s.readers)
  {
  }

  /** Giving up lets go of the lock, if it was held; so does a number that turns out to be taken. */
  lemma AbortInFields(s: State, a: AppenderId)
    requires a in s.appenders
    ensures var p, given := s.appenders[a], s.appenders[a := Aborted];
            && (p.Waiting? ==> Step(s, Abort(a)) == State(s.rows, s.locks, given, s.readers))
            && (p.Holding? ==> Step(s, Abort(a)) == State(s.rows, s.locks - {p.run}, given, s.readers))
            && (p.Read? ==> Step(s, Abort(a)) == State(s.rows, s.locks - {p.run}, given, s.readers))
            && (p.Inserted? ==> Step(s, Abort(a)) == State(s.rows, s.locks - {p.run}, given, s.readers))
            && (p.Appended? || p.Aborted? ==> Step(s, Abort(a)) == s)
            && (p.Inserted? && (p.run, p.sequence) in s.rows ==>
                  Step(s, Commit(a)) == State(s.rows, s.locks - {p.run}, given, s.readers))
  {
  }

  /** The numbers of a page. */
  ghost function Numbers(page: seq<Numbered>): set<int> {
    set n | n in page :: n.sequence
  }

  /** A reader starts before the first number and takes whole pages: exactly the later events, in order. */
  lemma ReadingInFields(s: State, r: ReaderId, run: RunId, page: seq<Numbered>)
    ensures r !in s.readers ==>
              Step(s, Subscribe(r, run)) == s.(readers := s.readers[r := Reader(run, -1, [])])
    ensures r in s.readers ==>
              var was := s.readers[r];
              var whole :=
                && (forall i, j :: 0 <= i < j < |page| ==> page[i].sequence < page[j].sequence)
                && (forall n :: n in page ==>
                      (was.run, n.sequence) in s.rows && s.rows[(was.run, n.sequence)] == n.event)
                && (forall k :: k in Numbers(page) <==> k > was.after && (was.run, k) in s.rows);
              Step(s, Poll(r, page))
              == if !whole then s
                 else s.(readers := s.readers[r := Reader(was.run,
                                                          if page == [] then was.after else page[|page| - 1].sequence,
                                                          was.received + page)])
  {
    if r in s.readers { PageIsWhole(s.rows, s.readers[r].run, s.readers[r].after, page); }
  }

  lemma PageIsWhole(rows: Rows, run: RunId, after: int, page: seq<Numbered>)
    ensures IsPage(rows, run, after, page) <==>
            && (forall i, j :: 0 <= i < j < |page| ==> page[i].sequence < page[j].sequence)
            && (forall n :: n in page ==> (run, n.sequence) in rows && rows[(run, n.sequence)] == n.event)
            && (forall k :: k in Numbers(page) <==> k > after && (run, k) in rows)
  {
    forall k ensures k in Numbers(page) <==> exists i :: 0 <= i < |page| && page[i].sequence == k {
      if i :| 0 <= i < |page| && page[i].sequence == k { assert page[i] in page; }
    }
    assert forall i :: 0 <= i < |page| ==> page[i] in page && page[i].sequence in Numbers(page);
  }

  // ---------------------------------------------------------------- invariants

  /** The numbers of a run are exactly 0, 1, ..., max. */
  ghost predicate Dense(rows: Rows) {
    forall run: RunId, max: int {:trigger IsMax(rows, run, max)} :: IsMax(rows, run, max) ==>
      max >= -1 && forall k :: (run, k) in rows <==> 0 <= k <= max
  }

  ghost predicate AppenderOk(s: State, a: AppenderId, p: Appender) {
    && (p.Holding? || p.Read? || p.Inserted? ==> p.run in s.locks && s.locks[p.run] == a)
    && (p.Read? ==> IsMax(s.rows, p.run, p.max))
    && (p.Inserted? ==> IsMax(s.rows, p.run, p.sequence - 1))
    && (p.Appended? ==> (p.run, p.sequence) in s.rows)
  }

  /** A reader holds the events 0 to `after`, each once, in order. */
  ghost predicate ReaderOk(rows: Rows, reader: Reader) {
    && |reader.received| == reader.after + 1
    && (forall i :: 0 <= i < |reader.received| ==>
          && reader.received[i].sequence == i
          && (reader.run, i) in rows && rows[(reader.run, i)] == reader.received[i].event)
  }

  ghost predicate Consistent(s: State) {
    && Dense(s.rows)
    && (forall a :: a in s.appenders ==> AppenderOk(s, a, s.appenders[a]))
    && (forall r :: r in s.readers ==> ReaderOk(s.rows, s.readers[r]))
  }

  lemma AppendKeepsDense(rows: Rows, run: RunId, max: int, event: Event)
    requires Dense(rows) && IsMax(rows, run, max)
    ensures (run, max + 1) !in rows
    ensures Dense(rows[(run, max + 1) := event]) && IsMax(rows[(run, max + 1) := event], run, max + 1)
  {
    var more := rows[(run, max + 1) := event];
    forall q, m | IsMax(more, q, m) ensures m >= -1 && forall k :: (q, k) in more <==> 0 <= k <= m {
      if q != run {
        assert IsMax(rows, q, m);
      } else {
        assert (run, max + 1) in more;
        assert m == max + 1;
        forall k ensures (q, k) in more <==> 0 <= k <= m { assert (q, k) in more <==> (q, k) in rows || k == max + 1; }
      }
    }
  }

  /** A page carries on exactly where the reader stopped. */
  lemma {:induction false} PageContinues(rows: Rows, run: RunId, max: int, after: int, page: seq<Numbered>, i: nat)
    requires Dense(rows) && IsMax(rows, run, max) && -1 <= after <= max && IsPage(rows, run, after, page)
    ensures |page| == max - after
    ensures i < |page| ==> page[i].sequence == after + 1 + i
  {
    PagePositions(rows, run, max, after, page, |page|);
    if i < |page| { PagePositions(rows, run, max, after, page, i + 1); }
    if |page| < max - after {
      assert (run, after + 1 + |page|) in rows;
      var j :| 0 <= j < |page| && page[j].sequence == after + 1 + |page|;
      PagePositions(rows, run, max, after, page, j + 1);
    }
    if |page| > 0 { assert (run, page[|page| - 1].sequence) in rows; }
  }

  lemma {:induction false} PagePositions(rows: Rows, run: RunId, max: int, after: int, page: seq<Numbered>, n: nat)
    requires Dense(rows) && IsMax(rows, run, max) && -1 <= after && IsPage(rows, run, after, page) && n <= |page|
    ensures forall i :: 0 <= i < n ==> page[i].sequence == after + 1 + i
  {
    if n > 0 {
      PagePositions(rows, run, max, after, page, n - 1);
      var k := after + n;
      assert n > 1 ==> page[n - 2].sequence < page[n - 1].sequence;
      assert (run, page[n - 1].sequence) in rows && (run, k) in rows;
      var j :| 0 <= j < |page| && page[j].sequence == k;
      assert j == n - 1;
    }
  }

  lemma SomeMax(rows: Rows, run: RunId) returns (max: int)
    ensures IsMax(rows, run, max)
  {
    var numbers := set k | k in rows && k.0 == run;
    if numbers == {} {
      max := -1;
      assert forall k :: (run, k) in rows ==> (run, k) in numbers;
    } else {
      var top := LargestOf(numbers, run);
      max := top;
      forall k | (run, k) in rows ensures k <= max { assert (run, k) in numbers; }
    }
  }

  lemma {:induction false} LargestOf(numbers: set<(RunId, int)>, run: RunId) returns (max: int)
    requires numbers != {} && forall k :: k in numbers ==> k.0 == run
    ensures (run, max) in numbers && forall k :: k in numbers ==> k.1 <= max
    decreases numbers
  {
    var first :| first in numbers;
    if numbers == {first} {
      max := first.1;
    } else {
      var rest := numbers - {first};
      assert numbers == rest + {first};
      max := LargestOf(rest, run);
      if first.1 > max { max := first.1; }
      assert forall k :: k in numbers ==> k == first || k in rest;
    }
  }

  lemma PageExtendsReader(rows: Rows, reader: Reader, page: seq<Numbered>)
    requires ReaderOk(rows, reader)
    requires forall i :: 0 <= i < |page| ==>
               && page[i].sequence == reader.after + 1 + i
               && (reader.run, page[i].sequence) in rows && rows[(reader.run, page[i].sequence)] == page[i].event
    ensures ReaderOk(rows, Reader(reader.run, LastOf(reader.after, page), reader.received + page))
  {
  }

  lemma {:induction false} PollKeepsReader(rows: Rows, reader: Reader, page: seq<Numbered>)
    requires Dense(rows) && ReaderOk(rows, reader) && IsPage(rows, reader.run, reader.after, page)
    ensures ReaderOk(rows, Reader(reader.run, LastOf(reader.after, page), reader.received + page))
    ensures forall k :: (reader.run, k) in rows ==> k <= LastOf(reader.after, page)
  {
    var max := SomeMax(rows, reader.run);
    if reader.received != [] { assert (reader.run, |reader.received| - 1) in rows; }
    assert -1 <= reader.after <= max;
    PagePositions(rows, reader.run, max, reader.after, page, |page|);
    PageContinues(rows, reader.run, max, reader.after, page, 0);
    PageExtendsReader(rows, reader, page);
  }

  /** At its commit an appender still knows the true maximum: no one else could append meanwhile. */
  lemma CommitIsSerialAppend(s: State, a: AppenderId)
    requires Consistent(s) && a in s.appenders && s.appenders[a].Inserted?
    ensures var p, s' := s.appenders[a], Step(s, Commit(a));
            && IsMax(s.rows, p.run, p.sequence - 1)
            && s'.rows == s.rows[(p.run, p.sequence) := p.event] && (p.run, p.sequence) !in s.rows
            && s'.appenders[a] == Appended(p.run, p.sequence)
  {
  }

  lemma CommitKeepsConsistency(s: State, a: AppenderId)
    requires Consistent(s) && a in s.appenders && s.appenders[a].Inserted?
    ensures Consistent(Step(s, Commit(a)))
  {
    var p, s' := s.appenders[a], Step(s, Commit(a));
    CommitIsSerialAppend(s, a);
    AppendKeepsDense(s.rows, p.run, p.sequence - 1, p.event);
    assert AppenderOk(s, a, p);
    forall b | b in s'.appenders ensures AppenderOk(s', b, s'.appenders[b]) {
      if b != a {
        assert AppenderOk(s, b, s.appenders[b]);
        var q := s.appenders[b];
        if q.Read? && q.run != p.run { assert forall k :: (q.run, k) in s'.rows <==> (q.run, k) in s.rows; }
        if q.Inserted? && q.run != p.run { assert forall k :: (q.run, k) in s'.rows <==> (q.run, k) in s.rows; }
      }
    }
    forall r | r in s'.readers ensures ReaderOk(s'.rows, s'.readers[r]) { assert ReaderOk(s.rows, s.readers[r]); }
  }

  lemma OtherStepsKeepAppenders(s: State, x: Action)
    requires Consistent(s) && !x.Poll? && !(x.Commit? && x.a in s.appenders && s.appenders[x.a].Inserted?)
    ensures var s' := Step(s, x); forall b :: b in s'.appenders ==> AppenderOk(s', b, s'.appenders[b])
  {
  }

  lemma StepKeepsConsistency(s: State, x: Action)
    requires Consistent(s)
    ensures Consistent(Step(s, x))
  {
    var s' := Step(s, x);
    if x.Commit? && x.a in s.appenders && s.appenders[x.a].Inserted? {
      CommitKeepsConsistency(s, x.a);
    } else if x.Poll? {
      if s' != s { PollKeepsReader(s.rows, s.readers[x.r], x.page); }
    } else {
      OtherStepsKeepAppenders(s, x);
      assert s'.rows == s.rows;
    }
  }

  /** In every interleaving of appenders and readers, aborted transactions included, each run's
      committed numbers are 0..n-1 and each reader holds a gap-free prefix without repeats. */
  lemma {:induction false} EveryRunIsConsistent(xs: seq<Action>)
    ensures Consistent(RunSteps(EMPTY, xs))
  {
    if xs != [] {
      EveryRunIsConsistent(xs[..|xs| - 1]);
      StepKeepsConsistency(RunSteps(EMPTY, xs[..|xs| - 1]), xs[|xs| - 1]);
    }
  }

  /** After a poll the reader has every event committed so far, once each and in order. */
  lemma PollCatchesUp(xs: seq<Action>, r: ReaderId, page: seq<Numbered>, max: int)
    requires var s := RunSteps(EMPTY, xs);
             r in s.readers && IsPage(s.rows, s.readers[r].run, s.readers[r].after, page) &&
               IsMax(s.rows, s.readers[r].run, max)
    ensures var s := RunSteps(EMPTY, xs);
            var reader := Step(s, Poll(r, page)).readers[r];
            && |reader.received| == max + 1
            && s.readers[r].received <= reader.received
            && (forall k :: 0 <= k <= max ==>
                  (reader.run, k) in s.rows && reader.received[k] == Numbered(k, s.rows[(reader.run, k)]))
  {
    var s := RunSteps(EMPTY, xs);
    EveryRunIsConsistent(xs);
    PollKeepsReader(s.rows, s.readers[r], page);
    var reader := Step(s, Poll(r, page)).readers[r];
    assert ReaderOk(s.rows, reader) && ReaderOk(s.rows, s.readers[r]);
    if reader.received != [] { assert (reader.run, |reader.received| - 1) in s.rows; }
  }

  // ---------------------------------------------------------------- the service

  class EventLog {
    var rows: Rows

    constructor ()
      ensures rows == map[] && Dense(rows)
    {
      rows := map[];
    }

    /** One transaction under the run's lock: read the maximum, insert the next number. */
    method Append(run: RunId, event: Event) returns (sequence: int)
      requires Dense(rows)
      modifies this
      ensures Dense(rows)
      ensures IsMax(old(rows), run, sequence - 1) && IsMax(rows, run, sequence)
      ensures rows == old(rows)[(run, sequence) := event] && (run, sequence) !in old(rows)
    {
      var max := -1;
      var rest := set k | k in rows && k.0 == run;
      while rest != {}
        invariant rows == old(rows)
        invariant max == -1 || (run, max) in rows
        invariant forall k :: (run, k) in rows ==> k <= max || (run, k) in rest
        decreases rest
      {
        var key :| key in rest;
        rest := rest - {key};
        if key.1 > max { max := key.1; }
      }
      assert IsMax(rows, run, max) by { assert forall k :: (run, k) in rows ==> (run, k) !in rest; }
      AppendKeepsDense(rows, run, max, event);
      sequence := max + 1;
      rows := rows[(run, sequence) := event];
    }

    /** The events after a number, ascending. */
    method ListSince(run: RunId, after: int) returns (page: seq<Numbered>)
      ensures IsPage(rows, run, after, page)
    {
      page := [];
      var rest := set k | k in rows && k.0 == run && k.1 > after;
      while rest != {}
        invariant PartialPage(rows, run, after, page, rest)
        decreases rest
      {
        ghost var least := SmallestOf(rest, run);
        var key :| key in rest && forall k :: k in rest ==> key.1 <= k.1;
        PageGrows(rows, run, after, page, rest, key);
        page := page + [Numbered(key.1, rows[key])];
        rest := rest - {key};
      }
    }
  }

  /** A page of the smallest numbers, with the rows still to come. */
  ghost predicate PartialPage(rows: Rows, run: RunId, after: int, page: seq<Numbered>, rest: set<(RunId, int)>) {
    && (forall k :: k in rest ==> k in rows && k.0 == run && k.1 > after)
    && (forall i, k :: 0 <= i < |page| && k in rest ==> page[i].sequence < k.1)
    && (forall i, j :: 0 <= i < j < |page| ==> page[i].sequence < page[j].sequence)
    && (forall i :: 0 <= i < |page| ==>
          page[i].sequence > after && (run, page[i].sequence) in rows && rows[(run, page[i].sequence)] == page[i].event)
    && (forall k :: k > after && (run, k) in rows && (run, k) !in rest ==>
         exists i :: 0 <= i < |page| && page[i].sequence == k)
  }

  lemma PageGrows(rows: Rows, run: RunId, after: int, page: seq<Numbered>, rest: set<(RunId, int)>, key: (RunId, int))
    requires PartialPage(rows, run, after, page, rest) && key in rest && forall k :: k in rest ==> key.1 <= k.1
    ensures PartialPage(rows, run, after, page + [Numbered(key.1, rows[key])], rest - {key})
  {
    var more := page + [Numbered(key.1, rows[key])];
    forall k | k > after && (run, k) in rows && (run, k) !in rest - {key}
      ensures exists i :: 0 <= i < |more| && more[i].sequence == k
    {
      if k == key.1 {
        assert more[|page|].sequence == k;
      } else {
        var i :| 0 <= i < |page| && page[i].sequence == k;
        assert more[i].sequence == k;
      }
    }
    forall k | k in rest - {key} ensures key.1 < k.1 { assert k.0 == key.0; }
  }

  lemma {:induction false} SmallestOf(numbers: set<(RunId, int)>, run: RunId) returns (min: int)
    requires numbers != {} && forall k :: k in numbers ==> k.0 == run
    ensures (run, min) in numbers && forall k :: k in numbers ==> min <= k.1
    decreases numbers
  {
    var first :| first in numbers;
    min := first.1;
    var rest := numbers - {first};
    assert numbers == rest + {first};
    if rest != {} {
      var other := SmallestOf(rest, run);
      if other < min { min := other; }
    }
  }
}
