/** Outbound sends: per connector one chain of promises, with a minimum time between two sends. */
module SendThrottle {

  type ConnectorId = string

  /** A queued send, told apart by when it was called. */
  type Task = nat

  datatype Start = Start(task: Task, at: int)

  datatype Outcome = Outcome(task: Task, rejected: bool)

  datatype Phase =
    | Idle
    | Sleeping(task: Task, until: int)
    | Sending(task: Task)

  /** `waiting` are the links of the chain behind the current one; the other sequences are history. */
  datatype Chain = Chain(waiting: seq<Task>, phase: Phase, lastSentAt: int,
                         called: seq<Task>, starts: seq<Start>, outcomes: seq<Outcome>)

  const NEW_CHAIN := Chain([], Idle, 0, [], [], [])

  datatype State = State(interval: int, now: int, chains: map<ConnectorId, Chain>)

  datatype Action =
    | Advance(to: int)                             // time passes
    | Call(connector: ConnectorId, task: Task)
    | Turn(connector: ConnectorId)                 // the previous link has settled
    | Send(connector: ConnectorId)                 // the sleep, if any, is over
    | Settle(connector: ConnectorId, rejected: bool)

  function ChainOf(s: State, c: ConnectorId): Chain {
    if c in s.chains then s.chains[c] else NEW_CHAIN
  }

  /** The wait the source computes, never negative. */
  function Wait(interval: int, now: int, lastSentAt: int): nat {
    var wait := interval - (now - lastSentAt);
    if wait > 0 then wait else 0
  }

  /** One step of a connector's chain at time `now`; a step that is not due changes nothing. */
  function ChainStep(interval: int, now: int, k: Chain, x: Action): Chain {
    match x
    case Advance(_) => k
    case Call(_, task) => k.(waiting := k.waiting + [task], called := k.called + [task])
    case Turn(_) =>
      if !k.phase.Idle? || k.waiting == [] then k
      else k.(waiting := k.waiting[1..], phase := Sleeping(k.waiting[0], now + Wait(interval, now, k.lastSentAt)))
    case Send(_) =>
      if !k.phase.Sleeping? || now < k.phase.until then k
      else k.(phase := Sending(k.phase.task), lastSentAt := now, starts := k.starts + [Start(k.phase.task, now)])
    case Settle(_, rejected) =>
      if !k.phase.Sending? then k
      else k.(phase := Idle, outcomes := k.outcomes + [Outcome(k.phase.task, rejected)])
  }

  function Step(s: State, x: Action): State {
    if x.Advance? then s.(now := if x.to > s.now then x.to else s.now)
    else s.(chains := s.chains[x.connector := ChainStep(s.interval, s.now, ChainOf(s, x.connector), x)])
  }

  function Run(s: State, xs: seq<Action>): State
    decreases |xs|
  {
    if xs == [] then s else Step(Run(s, xs[..|xs| - 1]), xs[|xs| - 1])
  }

  function Init(interval: int, now: nat): State {
    State(interval, now, map[])
  }

  /** What each step does to a chain: the next call waits until the interval since the last send has passed, if it
      has not; a send notes its time; and settling, either way, reports its own outcome. */
  lemma StepsInFields(interval: int, now: int, k: Chain, c: ConnectorId, task: Task, rejected: bool)
    ensures ChainStep(interval, now, k, Call(c, task))
            == Chain(k.waiting + [task], k.phase, k.lastSentAt, k.called + [task], k.starts, k.outcomes)
    ensures k.phase == Idle && k.waiting != [] ==>
              var due := k.lastSentAt + interval;
              ChainStep(interval, now, k, Turn(c))
              == Chain(k.waiting[1..], Sleeping(k.waiting[0], if due > now then due else now), k.lastSentAt, k.called,
                       k.starts, k.outcomes)
    ensures k.phase.Sleeping? && now >= k.phase.until ==>
              ChainStep(interval, now, k, Send(c))
              == Chain(k.waiting, Sending(k.phase.task), now, k.called, k.starts + [Start(k.phase.task, now)],
                       k.outcomes)
    ensures k.phase.Sending? ==>
              ChainStep(interval, now, k, Settle(c, rejected))
              == Chain(k.waiting, Idle, k.lastSentAt, k.called, k.starts,
                       k.outcomes + [Outcome(k.phase.task, rejected)])
    ensures !(k.phase == Idle && k.waiting != []) ==> ChainStep(interval, now, k, Turn(c)) == k
    ensures !(k.phase.Sleeping? && now >= k.phase.until) ==> ChainStep(interval, now, k, Send(c)) == k
    ensures !k.phase.Sending? ==> ChainStep(interval, now, k, Settle(c, rejected)) == k
  {
  }

  // ---------------------------------------------------------------- order

  function Tasks(starts: seq<Start>): seq<Task> {
    seq(|starts|, i requires 0 <= i < |starts| => starts[i].task)
  }

  function Current(k: Chain): seq<Task> {
    if k.phase.Sleeping? then [k.phase.task] else []
  }

  /** Calls start in order, each once: started, about to start, waiting. A send settles before the next
      one starts. */
  ghost predicate InOrder(k: Chain) {
    && k.called == Tasks(k.starts) + Current(k) + k.waiting
    && |k.starts| == |k.outcomes| + (if k.phase.Sending? then 1 else 0)
    && (k.phase.Sending? ==> k.starts[|k.outcomes|].task == k.phase.task)
    && (forall i :: 0 <= i < |k.outcomes| ==> k.outcomes[i].task == k.starts[i].task)
  }

  lemma StepKeepsOrder(interval: int, now: int, k: Chain, x: Action)
    requires InOrder(k)
    ensures InOrder(ChainStep(interval, now, k, x))
  {
  }

  // ---------------------------------------------------------------- spacing

  ghost predicate Spaced(interval: int, starts: seq<Start>) {
    forall i :: 0 < i < |starts| ==> starts[i].at - starts[i - 1].at >= interval && starts[i].at >= starts[i - 1].at
  }

  function LastAt(starts: seq<Start>): int {
    if starts == [] then 0 else starts[|starts| - 1].at
  }

  ghost predicate OnTime(interval: int, now: int, k: Chain) {
    && Spaced(interval, k.starts)
    && k.lastSentAt == LastAt(k.starts) <= now
    && (k.phase.Sleeping? ==> k.phase.until >= k.lastSentAt + interval && k.phase.until >= k.lastSentAt)
  }

  lemma StepKeepsTime(interval: int, now: int, k: Chain, x: Action)
    requires OnTime(interval, now, k)
    ensures OnTime(interval, now, ChainStep(interval, now, k, x))
  {
  }

  ghost predicate AllWell(s: State) {
    s.now >= 0 && forall c :: InOrder(ChainOf(s, c)) && OnTime(s.interval, s.now, ChainOf(s, c))
  }

  lemma StepKeepsWell(s: State, x: Action)
    requires AllWell(s)
    ensures AllWell(Step(s, x))
  {
    var t := Step(s, x);
    forall c ensures InOrder(ChainOf(t, c)) && OnTime(t.interval, t.now, ChainOf(t, c)) {
      var k := ChainOf(s, c);
      assert InOrder(k) && OnTime(s.interval, s.now, k);
      if !x.Advance? && x.connector == c {
        StepKeepsOrder(s.interval, s.now, k, x);
        StepKeepsTime(s.interval, s.now, k, x);
        assert ChainOf(t, c) == ChainStep(s.interval, s.now, k, x);
      } else {
        assert ChainOf(t, c) == k;
      }
    }
  }

  lemma {:induction false} EveryRunIsWell(interval: int, now: nat, xs: seq<Action>)
    ensures Run(Init(interval, now), xs).interval == interval
    ensures AllWell(Run(Init(interval, now), xs))
    decreases |xs|
  {
    if xs != [] {
      EveryRunIsWell(interval, now, xs[..|xs| - 1]);
      var s, x := Run(Init(interval, now), xs[..|xs| - 1]), xs[|xs| - 1];
      StepKeepsWell(s, x);
    } else {
      assert Tasks([]) == [];
    }
  }

  /** How many sends start in the window from `from` to `to`, both included. */
  function StartsWithin(starts: seq<Start>, from: int, to: int): nat {
    if starts == [] then 0
    else
      var last := starts[|starts| - 1].at;
      StartsWithin(starts[..|starts| - 1], from, to) + (if from <= last <= to then 1 else 0)
  }

  lemma {:induction false} NoneBefore(interval: int, starts: seq<Start>, from: int, to: int)
    requires Spaced(interval, starts) && LastAt(starts) < from
    ensures starts != [] ==> StartsWithin(starts, from, to) == 0
  {
    if |starts| > 1 { NoneBefore(interval, starts[..|starts| - 1], from, to); }
  }

  lemma {:induction false} WindowsFillSlowly(interval: int, starts: seq<Start>, from: int, to: int)
    requires interval > 0 && Spaced(interval, starts)
    ensures var n := StartsWithin(starts, from, to);
            n > 0 ==> (n - 1) * interval <= to - from && (n - 1) * interval <= LastAt(starts) - from
  {
    if starts != [] {
      var init, last := starts[..|starts| - 1], LastAt(starts);
      WindowsFillSlowly(interval, init, from, to);
      var n := StartsWithin(starts, from, to);
      if from <= last <= to {
        if n > 1 {
          assert LastAt(init) + interval <= last;
          assert (n - 1) * interval == (n - 2) * interval + interval;
        }
      } else if last < from {
        NoneBefore(interval, starts, from, to);
      }
    }
  }

  lemma MultiplyKeepsOrder(a: int, b: int, d: int)
    requires a <= b && d > 0
    ensures a * d <= b * d
  {
  }

  lemma {:induction false} Quotient(n: nat, d: int, w: int)
    requires d > 0 && n * d <= w
    ensures n <= w / d
  {
    assert w == w / d * d + w % d;
    if n > w / d { MultiplyKeepsOrder(w / d + 1, n, d); }
  }

  // ---------------------------------------------------------------- main results

  /** On every connector sends start in call order, each once, whether or not earlier ones were rejected. */
  lemma SendsStartInCallOrder(interval: int, now: nat, xs: seq<Action>, c: ConnectorId)
    ensures var k := ChainOf(Run(Init(interval, now), xs), c);
            && Tasks(k.starts) <= k.called
            && (k.phase.Idle? && k.waiting == [] ==> Tasks(k.starts) == k.called && |k.outcomes| == |k.called|)
            && |k.outcomes| <= |k.starts| <= |k.outcomes| + 1
  {
    EveryRunIsWell(interval, now, xs);
    assert InOrder(ChainOf(Run(Init(interval, now), xs), c));
  }

  /** No window of length `w` sees more than `w / interval + 1` sends of one connector start. */
  lemma WindowsAreBounded(interval: int, now: nat, xs: seq<Action>, c: ConnectorId, from: int, w: nat)
    requires interval > 0
    ensures StartsWithin(ChainOf(Run(Init(interval, now), xs), c).starts, from, from + w) <= w / interval + 1
  {
    EveryRunIsWell(interval, now, xs);
    var starts := ChainOf(Run(Init(interval, now), xs), c).starts;
    assert Spaced(interval, starts) by {
      assert OnTime(interval, Run(Init(interval, now), xs).now, ChainOf(Run(Init(interval, now), xs), c));
    }
    WindowsFillSlowly(interval, starts, from, from + w);
    var n := StartsWithin(starts, from, from + w);
    if n > 0 { Quotient(n - 1, interval, w); }
  }

  function Seen(xs: seq<Action>, c: ConnectorId): seq<Action> {
    if xs == [] then []
    else
      var rest, x := Seen(xs[..|xs| - 1], c), xs[|xs| - 1];
      if x.Advance? || x.connector == c then rest + [x] else rest
  }

  /** Two states in which a connector looks the same. */
  predicate Alike(s: State, t: State, c: ConnectorId) {
    s.interval == t.interval && s.now == t.now && ChainOf(s, c) == ChainOf(t, c)
  }

  lemma StepSees(s: State, t: State, x: Action, c: ConnectorId)
    requires Alike(s, t, c)
    ensures Alike(Step(s, x), if x.Advance? || x.connector == c then Step(t, x) else t, c)
  {
  }

  /** Connectors do not hold each other up: a chain is where it would be had only its own steps happened. */
  lemma {:induction false} ConnectorsAreIndependent(s: State, xs: seq<Action>, c: ConnectorId)
    ensures Alike(Run(s, xs), Run(s, Seen(xs, c)), c)
    decreases |xs|
  {
    if xs != [] {
      var init, x := xs[..|xs| - 1], xs[|xs| - 1];
      ConnectorsAreIndependent(s, init, c);
      StepSees(Run(s, init), Run(s, Seen(init, c)), x, c);
      if x.Advance? || x.connector == c { RunSnoc(s, Seen(init, c), x); }
    }
  }

  lemma RunSnoc(s: State, xs: seq<Action>, x: Action)
    ensures Run(s, xs + [x]) == Step(Run(s, xs), x)
  {
  }

  // ---------------------------------------------------------------- nothing gets stuck

  /** The step moves its connector's chain on. */
  predicate IsDue(s: State, x: Action, c: ConnectorId) {
    && !x.Advance? && !x.Call? && x.connector == c
    && ChainStep(s.interval, s.now, ChainOf(s, c), x) != ChainOf(s, c)
  }

  function DueSteps(s: State, xs: seq<Action>, c: ConnectorId): nat
    decreases |xs|
  {
    if xs == [] then 0
    else DueSteps(s, xs[..|xs| - 1], c) + (if IsDue(Run(s, xs[..|xs| - 1]), xs[|xs| - 1], c) then 1 else 0)
  }

  /** How many steps a chain still has to make. */
  function StepsLeft(k: Chain): nat {
    3 * |k.waiting| + match k.phase case Idle => 0 case Sleeping(_, _) => 2 case Sending(_) => 1
  }

  predicate CallsNothing(xs: seq<Action>, c: ConnectorId) {
    forall i :: 0 <= i < |xs| && xs[i].Call? ==> xs[i].connector != c
  }

  lemma StepCountsDown(s: State, x: Action, c: ConnectorId)
    requires x.Call? ==> x.connector != c
    ensures StepsLeft(ChainOf(Step(s, x), c)) == StepsLeft(ChainOf(s, c)) - (if IsDue(s, x, c) then 1 else 0)
    ensures ChainOf(Step(s, x), c).called == ChainOf(s, c).called
  {
  }

  /** From any phase, under any schedule and whatever becomes of the sends: without new calls a chain has run
      empty after exactly so many steps that were due. */
  lemma {:induction false} ChainsRunEmpty(s: State, xs: seq<Action>, c: ConnectorId)
    requires CallsNothing(xs, c)
    ensures StepsLeft(ChainOf(Run(s, xs), c)) == StepsLeft(ChainOf(s, c)) - DueSteps(s, xs, c)
    ensures ChainOf(Run(s, xs), c).phase.Idle? && ChainOf(Run(s, xs), c).waiting == []
            <==> DueSteps(s, xs, c) == StepsLeft(ChainOf(s, c))
    ensures ChainOf(Run(s, xs), c).called == ChainOf(s, c).called
    decreases |xs|
  {
    if xs != [] {
      ChainsRunEmpty(s, xs[..|xs| - 1], c);
      StepCountsDown(Run(s, xs[..|xs| - 1]), xs[|xs| - 1], c);
    }
  }

  /** And until then some step is due, at the latest when the time it sleeps for has passed. */
  lemma SomethingIsDue(s: State, c: ConnectorId) returns (wait: Action, x: Action)
    requires StepsLeft(ChainOf(s, c)) > 0
    ensures wait.Advance? && IsDue(Step(s, wait), x, c)
  {
    var k := ChainOf(s, c);
    wait := Advance(if k.phase.Sleeping? then k.phase.until else s.now);
    match k.phase
    case Idle => x := Turn(c);
    case Sleeping(_, _) => x := Send(c);
    case Sending(_) => x := Settle(c, true);
  }

  // ---------------------------------------------------------------- the module state

  class Throttle {
    const interval: int
    var now: int
    var chains: map<ConnectorId, Chain>

    function View(): State
      reads this
    {
      State(interval, now, chains)
    }

    constructor (interval: int, now: nat)
      ensures View() == Init(interval, now)
    {
      this.interval := interval;
      this.now := now;
      chains := map[];
    }

    method ThrottledSend(c: ConnectorId, task: Task)
      modifies `chains
      ensures View() == Step(old(View()), Call(c, task))
    {
      var prev := if c in chains then chains[c] else NEW_CHAIN;
      chains := chains[c := prev.(waiting := prev.waiting + [task], called := prev.called + [task])];
    }

    /** The link's body up to the end of its sleep. */
    method TakeTurn(c: ConnectorId) returns (wait: nat)
      requires c in chains && chains[c].phase.Idle? && chains[c].waiting != []
      modifies `chains
      ensures View() == Step(old(View()), Turn(c))
      ensures c in chains && chains[c].phase == Sleeping(old(chains[c].waiting[0]), now + wait)
    {
      var k := chains[c];
      wait := if interval - (now - k.lastSentAt) > 0 then interval - (now - k.lastSentAt) else 0;
      chains := chains[c := k.(waiting := k.waiting[1..], phase := Sleeping(k.waiting[0], now + wait))];
    }

    /** The rest: note the time, call the function. */
    method SendNow(c: ConnectorId)
      requires c in chains && chains[c].phase.Sleeping? && chains[c].phase.until <= now
      modifies `chains
      ensures View() == Step(old(View()), Send(c))
    {
      var k := chains[c];
      k := k.(lastSentAt := now);
      k := k.(phase := Sending(k.phase.task), starts := k.starts + [Start(k.phase.task, now)]);
      chains := chains[c := k];
    }

    /** The function's promise settles; the chain goes on either way, the caller is told which. */
    method OnSettled(c: ConnectorId, rejected: bool) returns (outcome: Outcome)
      requires c in chains && chains[c].phase.Sending?
      modifies `chains
      ensures View() == Step(old(View()), Settle(c, rejected))
      ensures outcome == Outcome(old(chains[c].phase.task), rejected)
    {
      var k := chains[c];
      outcome := Outcome(k.phase.task, rejected);
      chains := chains[c := k.(phase := Idle, outcomes := k.outcomes + [outcome])];
    }
  }
}
