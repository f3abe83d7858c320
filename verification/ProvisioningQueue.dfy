/** The in-process provisioning queue: bounded concurrency, first come first served, no queued duplicates. */
module ProvisioningQueue {
  import opened Separators
  import opened Wrappers

  /** What the job's key is made of, and the rest of it. */
  datatype Job =
    | Provision(agentId: string, rest: string)
    | Restart(agentId: string, rest: string)
    | Team(agentId: string, teamId: string, rest: string)

  function JobKey(job: Job): string {
    match job
    case Provision(agentId, _) => "provision:" + agentId
    case Restart(agentId, _) => "restart:" + agentId
    case Team(agentId, teamId, _) => "team:" + agentId + ":" + teamId
  }

  /** The configured limit, if it parses as a number at all. */
  function MaxConcurrent(configured: Option<int>): (n: nat)
    ensures 1 <= n <= 4
    ensures configured.Some? && 1 <= configured.value <= 4 ==> n == configured.value
    ensures configured == None || configured.value < 1 ==> n == 1
    ensures configured != None && configured.value > 4 ==> n == 4
  {
    if configured.Some? && configured.value >= 1
    then if configured.value < 4 then configured.value else 4
    else 1
  }

  /** The fields of the queue, and its history: the jobs accepted, handed to the handler, lost because
      there was none yet, and finished. */
  datatype State = State(
    max: nat, queue: seq<Job>, active: nat, handler: bool,
    accepted: seq<Job>, started: seq<Job>, dropped: seq<Job>, finished: seq<Job>)

  function Init(max: nat): State {
    State(max, [], 0, false, [], [], [], [])
  }

  predicate IsQueued(queue: seq<Job>, key: string) {
    exists i :: 0 <= i < |queue| && JobKey(queue[i]) == key
  }

  /** The source shifts a job before it looks for the handler. */
  function Drain(s: State): State
    decreases |s.queue|
  {
    if s.queue == [] || s.active >= s.max then s
    else if !s.handler then s.(queue := s.queue[1..], dropped := s.dropped + [s.queue[0]])
    else Drain(s.(queue := s.queue[1..], active := s.active + 1, started := s.started + [s.queue[0]]))
  }

  datatype Action =
    | SetHandler
    | Enqueue(job: Job)
    | Settle(job: Job)     // a handler's promise resolves or rejects

  /** A job can settle as often as it was started. */
  predicate IsRunning(s: State, job: Job) {
    s.active > 0 && job in multiset(s.started) - multiset(s.finished)
  }

  function Step(s: State, x: Action): State {
    match x
    case SetHandler => s.(handler := true)
    case Enqueue(job) =>
      if IsQueued(s.queue, JobKey(job)) then s
      else Drain(s.(queue := s.queue + [job], accepted := s.accepted + [job]))
    case Settle(job) =>
      if !IsRunning(s, job) then s
      else Drain(s.(active := s.active - 1, finished := s.finished + [job]))
  }

  function Run(s: State, xs: seq<Action>): State
    decreases |xs|
  {
    if xs == [] then s else Step(Run(s, xs[..|xs| - 1]), xs[|xs| - 1])
  }

  // ---------------------------------------------------------------- invariants

  ghost predicate NoQueuedDuplicates(queue: seq<Job>) {
    forall i, j :: 0 <= i < j < |queue| ==> JobKey(queue[i]) != JobKey(queue[j])
  }

  /** True at all times, in the middle of a drain too. */
  ghost predicate Accounted(s: State) {
    && NoQueuedDuplicates(s.queue)
    && s.accepted == s.dropped + s.started + s.queue
    && multiset(s.finished) <= multiset(s.started)
    && |s.started| == s.active + |s.finished|
    && s.active <= s.max
    && (!s.handler ==> s.started == [])
    && s.max >= 1
  }

  /** The queue is as short as the limit allows. */
  predicate Drained(s: State) {
    s.queue == [] || (s.handler && s.active == s.max)
  }

  /** A drain with a handler hands over as many jobs as there is room for, from the front. */
  lemma {:induction false} DrainTakesWhatFits(s: State)
    requires s.handler && s.active <= s.max
    ensures var room := s.max - s.active;
            var n := if |s.queue| < room then |s.queue| else room;
            Drain(s) == s.(queue := s.queue[n..], active := s.active + n, started := s.started + s.queue[..n])
    decreases |s.queue|
  {
    if s.queue == [] || s.active == s.max {
      assert s.queue[0..] == s.queue && s.started + s.queue[..0] == s.started;
    } else {
      var t := s.(queue := s.queue[1..], active := s.active + 1, started := s.started + [s.queue[0]]);
      DrainTakesWhatFits(t);
      var room := t.max - t.active;
      var n := if |t.queue| < room then |t.queue| else room;
      assert t.queue[n..] == s.queue[n + 1..];
      assert t.started + t.queue[..n] == s.started + s.queue[..n + 1];
    }
  }

  lemma MoreStarted(finished: seq<Job>, started: seq<Job>, more: seq<Job>)
    requires multiset(finished) <= multiset(started)
    ensures multiset(finished) <= multiset(started + more)
  {
  }

  lemma HandingOverKeeps(s: State, n: nat)
    requires Accounted(s) && s.handler && n <= |s.queue| && s.active + n <= s.max
    ensures Accounted(s.(queue := s.queue[n..], active := s.active + n, started := s.started + s.queue[..n]))
  {
    assert s.queue == s.queue[..n] + s.queue[n..];
    assert s.dropped + s.started + s.queue == s.dropped + (s.started + s.queue[..n]) + s.queue[n..];
    MoreStarted(s.finished, s.started, s.queue[..n]);
    var q := s.queue[n..];
    forall i, j | 0 <= i < j < |q| ensures JobKey(q[i]) != JobKey(q[j]) {
      assert q[i] == s.queue[i + n] && q[j] == s.queue[j + n];
    }
  }

  lemma DroppingKeeps(s: State)
    requires Accounted(s) && !s.handler && |s.queue| == 1
    ensures Accounted(s.(queue := s.queue[1..], dropped := s.dropped + [s.queue[0]]))
  {
  }

  lemma {:induction false} DrainKeeps(s: State)
    requires Accounted(s) && (s.handler || |s.queue| <= 1)
    ensures Accounted(Drain(s)) && Drained(Drain(s))
  {
    if s.handler {
      ServingKeeps(s);
    } else if s.queue != [] {
      DroppingKeeps(s);
    }
  }

  lemma ServingKeeps(s: State)
    requires Accounted(s) && s.handler
    ensures Accounted(Drain(s)) && Drained(Drain(s))
  {
    var room := s.max - s.active;
    var n := if |s.queue| < room then |s.queue| else room;
    var served := s.(queue := s.queue[n..], active := s.active + n, started := s.started + s.queue[..n]);
    DrainTakesWhatFits(s);
    HandingOverKeeps(s, n);
    assert Drain(s) == served;
    assert Drained(served);
  }

  lemma EnqueueKeeps(s: State, job: Job)
    requires Accounted(s) && Drained(s) && !IsQueued(s.queue, JobKey(job))
    ensures Accounted(Step(s, Enqueue(job))) && Drained(Step(s, Enqueue(job)))
  {
    var t := s.(queue := s.queue + [job], accepted := s.accepted + [job]);
    assert t.accepted == t.dropped + t.started + t.queue;
    forall i, j | 0 <= i < j < |t.queue| ensures JobKey(t.queue[i]) != JobKey(t.queue[j]) {
      assert t.queue[i] == s.queue[i] && (j < |s.queue| ==> t.queue[j] == s.queue[j]);
    }
    DrainKeeps(t);
  }

  lemma SettleKeeps(s: State, job: Job)
    requires Accounted(s) && Drained(s) && IsRunning(s, job)
    ensures Accounted(Step(s, Settle(job))) && Drained(Step(s, Settle(job)))
  {
    var t := s.(active := s.active - 1, finished := s.finished + [job]);
    assert multiset(t.finished) == multiset(s.finished) + multiset{job};
    DrainKeeps(t);
  }

  lemma StepKeeps(s: State, x: Action)
    requires Accounted(s) && Drained(s)
    ensures Accounted(Step(s, x)) && Drained(Step(s, x))
  {
    if x.Enqueue? && !IsQueued(s.queue, JobKey(x.job)) {
      EnqueueKeeps(s, x.job);
    } else if x.Settle? && IsRunning(s, x.job) {
      SettleKeeps(s, x.job);
    }
  }

  /** After every step at most `max` jobs are active, jobs wait only while `max` are, no two queued jobs
      share a key, and every accepted job is accounted for, in order. */
  lemma {:induction false} EveryRunIsAccounted(max: nat, xs: seq<Action>)
    requires max >= 1
    ensures Accounted(Run(Init(max), xs)) && Drained(Run(Init(max), xs))
    decreases |xs|
  {
    if xs != [] {
      EveryRunIsAccounted(max, xs[..|xs| - 1]);
      StepKeeps(Run(Init(max), xs[..|xs| - 1]), xs[|xs| - 1]);
    }
  }

  // ---------------------------------------------------------------- main results

  function Min(a: int, b: int): int { if a < b then a else b }

  /** First come, first served: of the jobs not lost, exactly the first `finished + max` have started. */
  lemma StartsAreFifo(max: nat, xs: seq<Action>)
    requires max >= 1
    ensures var s := Run(Init(max), xs);
            && |s.dropped| <= |s.accepted|
            && var kept := s.accepted[|s.dropped|..];
               s.started == kept[..Min(|kept|, |s.finished| + max)]
  {
    EveryRunIsAccounted(max, xs);
    MaxStays(max, xs);
    var s := Run(Init(max), xs);
    var kept := s.accepted[|s.dropped|..];
    assert kept == s.started + s.queue;
    assert s.queue == [] ==> kept == s.started;
  }

  lemma {:induction false} DrainKeepsMax(s: State)
    ensures Drain(s).max == s.max && Drain(s).accepted == s.accepted && Drain(s).finished == s.finished
    ensures s.dropped <= Drain(s).dropped && Drain(s).handler == s.handler
    ensures s.handler ==> Drain(s).dropped == s.dropped
    decreases |s.queue|
  {
    if s.queue != [] && s.active < s.max && s.handler {
      DrainKeepsMax(s.(queue := s.queue[1..], active := s.active + 1, started := s.started + [s.queue[0]]));
    }
  }

  lemma {:induction false} MaxStays(max: nat, xs: seq<Action>)
    ensures Run(Init(max), xs).max == max
    decreases |xs|
  {
    if xs != [] {
      MaxStays(max, xs[..|xs| - 1]);
      StepGrows(Run(Init(max), xs[..|xs| - 1]), xs[|xs| - 1]);
    }
  }

  lemma StepGrows(s: State, x: Action)
    ensures Step(s, x).max == s.max
    ensures s.accepted <= Step(s, x).accepted && s.finished <= Step(s, x).finished && s.dropped <= Step(s, x).dropped
    ensures s.handler ==> Step(s, x).handler && Step(s, x).dropped == s.dropped
  {
    match x
    case SetHandler =>
    case Enqueue(job) => DrainKeepsMax(s.(queue := s.queue + [job], accepted := s.accepted + [job]));
    case Settle(job) =>
      if IsRunning(s, job) { DrainKeepsMax(s.(active := s.active - 1, finished := s.finished + [job])); }
  }

  /** What an earlier moment of a run has in common with a later one. */
  lemma {:induction false} RunGrows(max: nat, xs: seq<Action>, n: nat)
    requires n <= |xs|
    ensures var s, t := Run(Init(max), xs[..n]), Run(Init(max), xs);
            && s.max == t.max == max && s.accepted <= t.accepted && s.finished <= t.finished
            && (s.handler ==> t.handler && t.dropped == s.dropped)
    decreases |xs|
  {
    MaxStays(max, xs);
    MaxStays(max, xs[..n]);
    if n < |xs| {
      var init := xs[..|xs| - 1];
      assert init[..n] == xs[..n];
      RunGrows(max, init, n);
      StepGrows(Run(Init(max), init), xs[|xs| - 1]);
    } else {
      assert xs[..n] == xs;
    }
  }

  /** A queued job keeps its place in the line of accepted jobs. */
  lemma PlaceInLine(s: State, t: State, p: nat)
    requires s.accepted == s.dropped + s.started + s.queue && t.accepted == t.dropped + t.started + t.queue
    requires s.accepted <= t.accepted && t.dropped == s.dropped && p < |s.queue|
    ensures var at := |s.started| + p;
            if at < |t.started| then t.started[at] == s.queue[p]
            else at - |t.started| < |t.queue| && t.queue[at - |t.started|] == s.queue[p]
  {
    var at := |s.dropped| + |s.started| + p;
    assert s.accepted[at] == s.queue[p];
    assert t.accepted[at] == s.queue[p];
  }

  /** Where a job that had `p` jobs ahead of it in `s` is in a later state: still queued, with that many
      fewer ahead, or handed over. */
  ghost predicate ComesInTurn(s: State, t: State, p: nat)
    requires p < |s.queue|
  {
    var completions := |t.finished| - |s.finished|;
    if completions <= p
    then 0 <= p - completions < |t.queue| && t.queue[p - completions] == s.queue[p]
    else |s.started| + p < |t.started| && t.started[|s.started| + p] == s.queue[p]
  }

  lemma LaterStatesKeepTheLine(s: State, t: State, p: nat)
    requires Accounted(s) && Drained(s) && Accounted(t) && Drained(t) && p < |s.queue|
    requires t.max == s.max && s.accepted <= t.accepted && t.dropped == s.dropped && s.finished <= t.finished
    ensures ComesInTurn(s, t, p)
  {
    PlaceInLine(s, t, p);
    assert |s.started| == s.max + |s.finished| && |t.started| <= s.max + |t.finished|;
  }

  /** A job with `p` jobs ahead of it after `n` steps is handed over at exactly the (p+1)-th completion from
      then on, whatever is enqueued meanwhile. */
  lemma JobsWaitTheirTurn(max: nat, xs: seq<Action>, n: nat, p: nat)
    requires max >= 1 && n <= |xs|
    requires p < |Run(Init(max), xs[..n]).queue|
    ensures ComesInTurn(Run(Init(max), xs[..n]), Run(Init(max), xs), p)
  {
    EveryRunIsAccounted(max, xs[..n]);
    EveryRunIsAccounted(max, xs);
    RunGrows(max, xs, n);
    LaterStatesKeepTheLine(Run(Init(max), xs[..n]), Run(Init(max), xs), p);
  }

  predicate HandlerIsSet(xs: seq<Action>) {
    exists i :: 0 <= i < |xs| && xs[i].SetHandler?
  }

  lemma StepHandler(s: State, x: Action)
    ensures Step(s, x).handler <==> s.handler || x.SetHandler?
  {
    match x
    case SetHandler =>
    case Enqueue(job) => DrainKeepsMax(s.(queue := s.queue + [job], accepted := s.accepted + [job]));
    case Settle(job) =>
      if IsRunning(s, job) { DrainKeepsMax(s.(active := s.active - 1, finished := s.finished + [job])); }
  }

  lemma {:induction false} HandlerFollows(max: nat, xs: seq<Action>)
    ensures Run(Init(max), xs).handler <==> HandlerIsSet(xs)
    decreases |xs|
  {
    if xs != [] {
      var init, n := xs[..|xs| - 1], |xs| - 1;
      HandlerFollows(max, init);
      StepHandler(Run(Init(max), init), xs[n]);
      HandlerIsSetSplits(xs);
    }
  }

  lemma HandlerIsSetSplits(xs: seq<Action>)
    requires xs != []
    ensures HandlerIsSet(xs) <==> HandlerIsSet(xs[..|xs| - 1]) || xs[|xs| - 1].SetHandler?
  {
  }

  /** Every job was enqueued after the handler was set. */
  ghost predicate HandlerFirst(xs: seq<Action>) {
    forall i :: 0 <= i < |xs| && xs[i].Enqueue? ==> HandlerIsSet(xs[..i])
  }

  lemma HandlerFirstSplits(xs: seq<Action>)
    requires xs != []
    ensures var init, x := xs[..|xs| - 1], xs[|xs| - 1];
            HandlerFirst(xs) <==> HandlerFirst(init) && (x.Enqueue? ==> HandlerIsSet(init))
  {
    var init := xs[..|xs| - 1];
    assert forall i :: 0 <= i < |init| ==> xs[i] == init[i] && xs[..i] == init[..i];
  }

  /** One step loses a job exactly when it enqueues one and there is no handler. */
  lemma StepDrops(s: State, x: Action)
    requires Accounted(s) && Drained(s)
    ensures Step(s, x).dropped == s.dropped <==> !x.Enqueue? || s.handler
  {
    if s.handler {
      StepGrows(s, x);
    } else if x.Enqueue? {
      var t := s.(queue := [x.job], accepted := s.accepted + [x.job]);
      assert s.queue + [x.job] == [x.job] && !IsQueued(s.queue, JobKey(x.job));
      assert Drain(t).dropped == s.dropped + [x.job];
    }
  }

  /** No job is ever lost exactly when the handler is set before the first job is enqueued. */
  lemma {:induction false} JobsAreLostOnlyBeforeTheHandler(max: nat, xs: seq<Action>)
    requires max >= 1
    ensures Run(Init(max), xs).dropped == [] <==> HandlerFirst(xs)
    decreases |xs|
  {
    if xs != [] {
      var init, x := xs[..|xs| - 1], xs[|xs| - 1];
      var s := Run(Init(max), init);
      JobsAreLostOnlyBeforeTheHandler(max, init);
      EveryRunIsAccounted(max, init);
      HandlerFollows(max, init);
      HandlerFirstSplits(xs);
      StepGrows(s, x);
      StepDrops(s, x);
    }
  }

  /** In every run a job can settle exactly if it was started more often than it has settled. */
  lemma JobsRunUntilTheySettle(max: nat, xs: seq<Action>, job: Job)
    requires max >= 1
    ensures var s := Run(Init(max), xs);
            IsRunning(s, job) <==> multiset(s.started)[job] > multiset(s.finished)[job]
  {
    EveryRunIsAccounted(max, xs);
    var s := Run(Init(max), xs);
    if multiset(s.started)[job] > multiset(s.finished)[job] { MoreOfOne(s.finished, s.started, job); }
  }

  lemma MoreOfOne(a: seq<Job>, b: seq<Job>, job: Job)
    requires multiset(a) <= multiset(b) && multiset(b)[job] > multiset(a)[job]
    ensures |b| > |a|
  {
    assert |multiset(b) - multiset(a)| == |multiset(b)| - |multiset(a)|;
    assert job in multiset(b) - multiset(a);
    assert |multiset(a)| == |a| && |multiset(b)| == |b|;
  }

  // ---------------------------------------------------------------- keys

  predicate SameTarget(a: Job, b: Job) {
    match a
    case Provision(agentId, _) => b.Provision? && b.agentId == agentId
    case Restart(agentId, _) => b.Restart? && b.agentId == agentId
    case Team(agentId, teamId, _) => b.Team? && b.agentId == agentId && b.teamId == teamId
  }

  /** Team jobs of which one's agent id ends where the other's goes on after a colon. */
  predicate ConfusesTeams(a: Job, b: Job) {
    && a.Team? && b.Team?
    && (IsShifted(':', a.agentId, a.teamId, b.agentId, b.teamId)
        || IsShifted(':', b.agentId, b.teamId, a.agentId, a.teamId))
  }

  /** Two jobs are duplicates exactly when they are of the same kind for the same agent and team, or a colon in
      an agent id is taken for the one between agent and team. */
  lemma KeysAgreeExactly(a: Job, b: Job)
    ensures JobKey(a) == JobKey(b) <==> SameTarget(a, b) || ConfusesTeams(a, b)
  {
    var k, l := JobKey(a), JobKey(b);
    if a.Team? && b.Team? {
      assert k == "team:" + (a.agentId + ":" + a.teamId) && l == "team:" + (b.agentId + ":" + b.teamId);
      assert k == l ==> k[5..] == l[5..];
      GluedAlike(':', a.agentId, a.teamId, b.agentId, b.teamId);
    } else if k == l {
      assert k[0] == l[0];
      assert a.Provision? ==> k[10..] == a.agentId && l[10..] == b.agentId;
      assert a.Restart? ==> k[8..] == a.agentId && l[8..] == b.agentId;
    }
  }

  /** So for agent ids without a colon, as the service issues them, they are exactly when the targets agree. */
  lemma KeysTellJobsApart(a: Job, b: Job)
    requires ':' !in a.agentId && ':' !in b.agentId
    ensures JobKey(a) == JobKey(b) <==> SameTarget(a, b)
  {
    KeysAgreeExactly(a, b);
    if a.Team? && b.Team? {
      ShiftsNeedSeparator(':', a.agentId, a.teamId, b.agentId, b.teamId);
      ShiftsNeedSeparator(':', b.agentId, b.teamId, a.agentId, a.teamId);
    }
  }

  // ---------------------------------------------------------------- the class

  class Queue {
    const maxConcurrent: nat
    var queue: seq<Job>
    var active: nat
    var handler: bool
    ghost var accepted: seq<Job>
    ghost var started: seq<Job>
    ghost var dropped: seq<Job>
    ghost var finished: seq<Job>

    ghost function View(): State
      reads this
    {
      State(maxConcurrent, queue, active, handler, accepted, started, dropped, finished)
    }

    constructor (configured: Option<int>)
      ensures View() == Init(MaxConcurrent(configured))
    {
      maxConcurrent := MaxConcurrent(configured);
      queue, active, handler := [], 0, false;
      accepted, started, dropped, finished := [], [], [], [];
    }

    method InstallHandler()
      modifies `handler
      ensures View() == Step(old(View()), SetHandler)
    {
      handler := true;
    }

    method Add(job: Job)
      modifies this
      ensures View() == Step(old(View()), Enqueue(job))
    {
      if exists i :: 0 <= i < |queue| && JobKey(queue[i]) == JobKey(job) { return; }
      queue := queue + [job];
      accepted := accepted + [job];
      DrainQueue();
    }

    method PendingCount() returns (n: nat)
      ensures Accounted(View()) ==> n == |accepted| - |dropped| - |finished|
    {
      n := |queue| + active;
    }

    method DrainQueue()
      modifies this
      ensures View() == Drain(old(View()))
    {
      while |queue| > 0 && active < maxConcurrent
        invariant Drain(View()) == Drain(old(View()))
        decreases |queue|
      {
        var job := queue[0];
        queue := queue[1..];
        if !handler {
          dropped := dropped + [job];
          return;
        }
        active := active + 1;
        started := started + [job];   // the handler is called
      }
    }

    /** What runs when the handler's promise settles either way. */
    method OnSettled(job: Job)
      requires IsRunning(View(), job)
      modifies this
      ensures View() == Step(old(View()), Settle(job))
    {
      active := active - 1;
      finished := finished + [job];
      DrainQueue();
    }
  }
}
