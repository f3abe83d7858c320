/** Stopping a run stops everything it still waits for. */
module RunCancellation {
  import opened Wrappers
  import opened AgentRuns

  predicate Live(runs: Runs, r: RunId) {
    r in runs && !IsAgentRunTerminal(runs[r].status)
  }

  predicate OutstandingOf(i: Invocation, r: RunId) {
    i.parentRun == r && CanTransitionSubAgent(i.status)
  }

  /** `parent` waits for `child`. */
  ghost predicate WaitsFor(invs: Invocations, parent: RunId, child: RunId) {
    exists i :: i in invs && OutstandingOf(invs[i], parent) && invs[i].childRun == Some(child)
  }

  // ---------------------------------------------------------------- reachability

  /** A path of k hops over live runs. */
  ghost predicate ReachedIn(runs: Runs, invs: Invocations, root: RunId, n: RunId, k: nat)
    decreases k
  {
    && Live(runs, n)
    && if k == 0 then n == root
       else exists m :: m in runs && ReachedIn(runs, invs, root, m, k - 1) && WaitsFor(invs, m, n)
  }

  ghost predicate Reached(runs: Runs, invs: Invocations, root: RunId, n: RunId) {
    exists k: nat :: ReachedIn(runs, invs, root, n, k)
  }

  ghost function Reach(runs: Runs, invs: Invocations, root: RunId): set<RunId> {
    set n | n in runs && Reached(runs, invs, root, n)
  }

  ghost function ReachAll(runs: Runs, invs: Invocations, roots: set<RunId>): set<RunId> {
    set c, n | c in roots && n in Reach(runs, invs, c) :: n
  }

  ghost predicate Closed(runs: Runs, invs: Invocations, some: set<RunId>) {
    forall m, n :: m in some && WaitsFor(invs, m, n) && Live(runs, n) ==> n in some
  }

  // ---------------------------------------------------------------- what a stop changes

  function CancelRuns(runs: Runs, some: set<RunId>, message: string): Runs {
    map r <- runs :: if r in some then runs[r].(status := Canceled, error := Some(message)) else runs[r]
  }

  function CancelInvocations(invs: Invocations, some: set<RunId>, message: string): Invocations {
    map i <- invs ::
      if invs[i].parentRun in some && CanTransitionSubAgent(invs[i].status)
      then invs[i].(status := Stopped, error := Some(message))
      else invs[i]
  }

  lemma {:induction false} ReachIsClosed(runs: Runs, invs: Invocations, root: RunId)
    ensures Closed(runs, invs, Reach(runs, invs, root))
    ensures forall n :: n in Reach(runs, invs, root) ==> Live(runs, n)
    ensures Live(runs, root) <==> root in Reach(runs, invs, root)
    ensures !Live(runs, root) ==> Reach(runs, invs, root) == {}
  {
    forall m, n | m in Reach(runs, invs, root) && WaitsFor(invs, m, n) && Live(runs, n)
      ensures n in Reach(runs, invs, root)
    {
      var k: nat :| ReachedIn(runs, invs, root, m, k);
      assert ReachedIn(runs, invs, root, n, k + 1);
    }
    if Live(runs, root) { assert ReachedIn(runs, invs, root, root, 0); }
    forall n | n in Reach(runs, invs, root) ensures Live(runs, root) {
      var k: nat :| ReachedIn(runs, invs, root, n, k);
      PathStartsLive(runs, invs, root, n, k);
    }
  }

  lemma ReachAllIsClosed(runs: Runs, invs: Invocations, roots: set<RunId>, c: RunId)
    ensures Closed(runs, invs, ReachAll(runs, invs, roots))
    ensures ReachAll(runs, invs, roots + {c}) == ReachAll(runs, invs, roots) + Reach(runs, invs, c)
  {
    forall m, n | m in ReachAll(runs, invs, roots) && WaitsFor(invs, m, n) && Live(runs, n)
      ensures n in ReachAll(runs, invs, roots)
    {
      var d :| d in roots && m in Reach(runs, invs, d);
      ReachIsClosed(runs, invs, d);
      assert n in Reach(runs, invs, d);
    }
  }

  lemma {:induction false} PathStartsLive(runs: Runs, invs: Invocations, root: RunId, n: RunId, k: nat)
    requires ReachedIn(runs, invs, root, n, k)
    ensures Live(runs, root)
    decreases k
  {
    if k > 0 {
      var m :| m in runs && ReachedIn(runs, invs, root, m, k - 1) && WaitsFor(invs, m, n);
      PathStartsLive(runs, invs, root, m, k - 1);
    }
  }

  /** `Reach` is the smallest closed set that holds a live root. */
  lemma {:induction false} ReachIsLeast(runs: Runs, invs: Invocations, root: RunId, some: set<RunId>)
    requires Closed(runs, invs, some) && (Live(runs, root) ==> root in some)
    ensures Reach(runs, invs, root) <= some
  {
    forall n | n in Reach(runs, invs, root) ensures n in some {
      var k: nat :| ReachedIn(runs, invs, root, n, k);
      PathStaysInside(runs, invs, root, n, k, some);
    }
  }

  lemma {:induction false} PathStaysInside(runs: Runs, invs: Invocations, root: RunId, n: RunId, k: nat,
                                        some: set<RunId>)
    requires Closed(runs, invs, some) && (Live(runs, root) ==> root in some)
    requires ReachedIn(runs, invs, root, n, k)
    ensures n in some
    decreases k
  {
    if k > 0 {
      var m :| m in runs && ReachedIn(runs, invs, root, m, k - 1) && WaitsFor(invs, m, n);
      PathStaysInside(runs, invs, root, m, k - 1, some);
    }
  }

  // ---------------------------------------------------------------- stopping a closed set

  lemma LiveAfter(runs: Runs, some: set<RunId>, message: string, n: RunId)
    ensures Live(CancelRuns(runs, some, message), n) <==> Live(runs, n) && n !in some
  {
  }

  lemma WaitsAfter(invs: Invocations, some: set<RunId>, message: string, m: RunId, n: RunId)
    ensures WaitsFor(CancelInvocations(invs, some, message), m, n) <==> WaitsFor(invs, m, n) && m !in some
  {
    var after := CancelInvocations(invs, some, message);
    if WaitsFor(invs, m, n) && m !in some {
      var i :| i in invs && OutstandingOf(invs[i], m) && invs[i].childRun == Some(n);
      assert i in after && OutstandingOf(after[i], m) && after[i].childRun == Some(n);
    }
    if WaitsFor(after, m, n) {
      var i :| i in after && OutstandingOf(after[i], m) && after[i].childRun == Some(n);
      assert OutstandingOf(invs[i], m) && invs[i].childRun == Some(n);
    }
  }

  /** Once a closed set is stopped, the rest of the graph looks as it did. */
  lemma ReachAfterClosed(runs: Runs, invs: Invocations, some: set<RunId>, message: string, c: RunId)
    requires Closed(runs, invs, some)
    ensures Reach(CancelRuns(runs, some, message), CancelInvocations(invs, some, message), c)
            == Reach(runs, invs, c) - some
  {
    var runs', invs' := CancelRuns(runs, some, message), CancelInvocations(invs, some, message);
    forall n ensures n in Reach(runs', invs', c) <==> n in Reach(runs, invs, c) && n !in some {
      if n in Reach(runs', invs', c) {
        var k: nat :| ReachedIn(runs', invs', c, n, k);
        PathWasThere(runs, invs, some, message, c, n, k);
      }
      if n in Reach(runs, invs, c) && n !in some {
        var k: nat :| ReachedIn(runs, invs, c, n, k);
        PathStaysOutside(runs, invs, some, message, c, n, k);
      }
    }
  }

  lemma {:induction false} PathWasThere(runs: Runs, invs: Invocations, some: set<RunId>, message: string,
                                        c: RunId, n: RunId, k: nat)
    requires ReachedIn(CancelRuns(runs, some, message), CancelInvocations(invs, some, message), c, n, k)
    ensures ReachedIn(runs, invs, c, n, k) && n !in some
    decreases k
  {
    var runs', invs' := CancelRuns(runs, some, message), CancelInvocations(invs, some, message);
    LiveAfter(runs, some, message, n);
    if k > 0 {
      var m :| m in runs' && ReachedIn(runs', invs', c, m, k - 1) && WaitsFor(invs', m, n);
      PathWasThere(runs, invs, some, message, c, m, k - 1);
      WaitsAfter(invs, some, message, m, n);
    }
  }

  lemma {:induction false} PathStaysOutside(runs: Runs, invs: Invocations, some: set<RunId>, message: string,
                                            c: RunId, n: RunId, k: nat)
    requires Closed(runs, invs, some) && ReachedIn(runs, invs, c, n, k) && n !in some
    ensures ReachedIn(CancelRuns(runs, some, message), CancelInvocations(invs, some, message), c, n, k)
    decreases k
  {
    LiveAfter(runs, some, message, n);
    if k > 0 {
      var m :| m in runs && ReachedIn(runs, invs, c, m, k - 1) && WaitsFor(invs, m, n);
      PathStaysOutside(runs, invs, some, message, c, m, k - 1);
      WaitsAfter(invs, some, message, m, n);
    }
  }

  // ---------------------------------------------------------------- in fields

  predicate IsOver(status: RunStatus) {
    status in {Success, Failed, Canceled, Cancelled}
  }

  predicate IsPending(status: InvocationStatus) {
    status !in {Completed, Broken, Stopped}
  }

  /** What is reached: a root that is not over, and with a run every run that is not over and that one of its
      pending invocations started. */
  lemma ReachIsWhatIsPending(runs: Runs, invs: Invocations, root: RunId)
    ensures root in Reach(runs, invs, root) <==> root in runs && !IsOver(runs[root].status)
    ensures forall n :: n in Reach(runs, invs, root) ==> n in runs && !IsOver(runs[n].status)
    ensures forall i :: i in invs && invs[i].parentRun in Reach(runs, invs, root) && IsPending(invs[i].status)
                        && invs[i].childRun.Some? && invs[i].childRun.value in runs
                        && !IsOver(runs[invs[i].childRun.value].status) ==>
              invs[i].childRun.value in Reach(runs, invs, root)
  {
    ReachIsClosed(runs, invs, root);
    forall i | i in invs && invs[i].parentRun in Reach(runs, invs, root) && IsPending(invs[i].status)
               && invs[i].childRun.Some? && Live(runs, invs[i].childRun.value)
      ensures invs[i].childRun.value in Reach(runs, invs, root)
    {
      assert OutstandingOf(invs[i], invs[i].parentRun);
      assert WaitsFor(invs, invs[i].parentRun, invs[i].childRun.value);
    }
  }

  /** And nothing else is: it lies in every set with these properties. */
  lemma NothingElseIsReached(runs: Runs, invs: Invocations, root: RunId, some: set<RunId>)
    requires root in runs && !IsOver(runs[root].status) ==> root in some
    requires forall i :: i in invs && invs[i].parentRun in some && IsPending(invs[i].status)
                         && invs[i].childRun.Some? && invs[i].childRun.value in runs
                         && !IsOver(runs[invs[i].childRun.value].status) ==>
               invs[i].childRun.value in some
    ensures Reach(runs, invs, root) <= some
  {
    forall m, n | m in some && WaitsFor(invs, m, n) && Live(runs, n) ensures n in some {
      var i :| i in invs && OutstandingOf(invs[i], m) && invs[i].childRun == Some(n);
      assert invs[i].parentRun in some && IsPending(invs[i].status);
    }
    ReachIsLeast(runs, invs, root, some);
  }

  /** What stopping runs leaves of each row. */
  lemma StoppedRows(runs: Runs, invs: Invocations, some: set<RunId>, message: string)
    ensures CancelRuns(runs, some, message).Keys == runs.Keys
    ensures CancelInvocations(invs, some, message).Keys == invs.Keys
    ensures forall n :: n in runs ==>
              var was, now := runs[n], CancelRuns(runs, some, message)[n];
              if n in some then now == Run(was.agent, was.parent, was.subagent, Canceled, Some(message)) else now == was
    ensures forall i :: i in invs ==>
              var was, now := invs[i], CancelInvocations(invs, some, message)[i];
              if was.parentRun in some && IsPending(was.status)
              then now == Invocation(was.parentRun, was.parentAgent, was.childAgent, was.childRun, Stopped,
                                     Some(message))
              else now == was
  {
  }

  // ---------------------------------------------------------------- one run and its children

  /** Whatever `root` reaches is `root` itself or is reached from a child once `root` is stopped. */
  lemma {:induction false} PathEntersChild(runs: Runs, invs: Invocations, root: RunId, message: string, n: RunId,
                                        k: nat)
      returns (c: RunId)
    requires ReachedIn(runs, invs, root, n, k) && n != root
    ensures c != root && WaitsFor(invs, root, c)
    ensures Reached(CancelRuns(runs, {root}, message), CancelInvocations(invs, {root}, message), c, n)
    decreases k
  {
    var runs', invs' := CancelRuns(runs, {root}, message), CancelInvocations(invs, {root}, message);
    LiveAfter(runs, {root}, message, n);
    var m :| m in runs && ReachedIn(runs, invs, root, m, k - 1) && WaitsFor(invs, m, n);
    if m == root {
      c := n;
      assert ReachedIn(runs', invs', c, n, 0);
    } else {
      c := PathEntersChild(runs, invs, root, message, m, k - 1);
      var j: nat :| ReachedIn(runs', invs', c, m, j);
      WaitsAfter(invs, {root}, message, m, n);
      assert ReachedIn(runs', invs', c, n, j + 1);
    }
  }

  lemma {:induction false} PathFromParent(runs: Runs, invs: Invocations, root: RunId, message: string,
                                          c: RunId, n: RunId, k: nat)
    requires Live(runs, root) && WaitsFor(invs, root, c)
    requires ReachedIn(CancelRuns(runs, {root}, message), CancelInvocations(invs, {root}, message), c, n, k)
    ensures ReachedIn(runs, invs, root, n, k + 1)
    decreases k
  {
    var runs', invs' := CancelRuns(runs, {root}, message), CancelInvocations(invs, {root}, message);
    LiveAfter(runs, {root}, message, n);
    if k == 0 {
      assert ReachedIn(runs, invs, root, root, 0);
    } else {
      var m :| m in runs' && ReachedIn(runs', invs', c, m, k - 1) && WaitsFor(invs', m, n);
      PathFromParent(runs, invs, root, message, c, m, k - 1);
      WaitsAfter(invs, {root}, message, m, n);
    }
  }

  /** The set a stop has to hit, child by child. */
  lemma ReachByChildren(runs: Runs, invs: Invocations, root: RunId, message: string, children: set<RunId>)
    requires Live(runs, root)
    requires forall c :: c in children <==> c != root && WaitsFor(invs, root, c)
    ensures var below :=
            ReachAll(CancelRuns(runs, {root}, message), CancelInvocations(invs, {root}, message), children);
            Reach(runs, invs, root) == {root} + below && root !in below
  {
    var runs', invs' := CancelRuns(runs, {root}, message), CancelInvocations(invs, {root}, message);
    var below := ReachAll(runs', invs', children);
    forall n | n in Reach(runs, invs, root) ensures n == root || n in below {
      if n != root {
        var k: nat :| ReachedIn(runs, invs, root, n, k);
        var c := PathEntersChild(runs, invs, root, message, n, k);
        assert n in runs' && n in Reach(runs', invs', c);
      }
    }
    forall n | n in below ensures n in Reach(runs, invs, root) && n != root {
      var c :| c in children && n in Reach(runs', invs', c);
      var k: nat :| ReachedIn(runs', invs', c, n, k);
      PathFromParent(runs, invs, root, message, c, n, k);
      ReachIsClosed(runs', invs', c);
      LiveAfter(runs, {root}, message, n);
    }
    ReachIsClosed(runs, invs, root);
  }

  // ---------------------------------------------------------------- the cascade

  class RunStore {
    var runs: Runs
    var invs: Invocations
    /** The runs for which a `run_canceled` event was appended, in order. */
    var canceledLog: seq<RunId>

    constructor (runs: Runs, invs: Invocations)
      ensures this.runs == runs && this.invs == invs && canceledLog == []
    {
      this.runs, this.invs, canceledLog := runs, invs, [];
    }

    /** Stops the one run and its outstanding invocations; returns the runs behind those. */
    method StopOne(r: RunId, message: string) returns (children: set<RunId>)
      requires Live(runs, r)
      modifies `runs, `invs
      ensures runs == CancelRuns(old(runs), {r}, message)
      ensures invs == CancelInvocations(old(invs), {r}, message)
      ensures forall c :: c in children <==> c != r && WaitsFor(old(invs), r, c)
    {
      runs := runs[r := runs[r].(status := Canceled, error := Some(message))];
      var outstanding := set i | i in invs && OutstandingOf(invs[i], r);
      children := set i | i in outstanding && invs[i].childRun.Some? &&
        invs[i].childRun.value != r :: invs[i].childRun.value;
      forall c | c != r && WaitsFor(invs, r, c) ensures c in children {
        var i :| i in invs && OutstandingOf(invs[i], r) && invs[i].childRun == Some(c);
        assert i in outstanding;
      }
      invs := map i <- invs ::
        if i in outstanding then invs[i].(status := Stopped, error := Some(message)) else invs[i];
    }

    /** Stops `r`, the invocations it waits on and, one by one, the runs behind them. The children are
        taken in whatever order the database lists them. */
    method CancelAgentRun(r: RunId, message: string) returns (stopped: bool)
      modifies this
      ensures stopped <==> Live(old(runs), r)
      ensures runs == CancelRuns(old(runs), Reach(old(runs), old(invs), r), message)
      ensures invs == CancelInvocations(old(invs), Reach(old(runs), old(invs), r), message)
      ensures multiset(canceledLog) == multiset(old(canceledLog)) + multiset(Reach(old(runs), old(invs), r))
      ensures stopped <==> r in old(runs) && old(runs[r]).status !in {Success, Failed, Canceled, Cancelled}
      ensures runs.Keys == old(runs.Keys) && invs.Keys == old(invs.Keys)
      ensures forall n :: n in old(runs) ==>
                var was := old(runs)[n];
                if n in Reach(old(runs), old(invs), r)
                then runs[n] == Run(was.agent, was.parent, was.subagent, Canceled, Some(message))
                else runs[n] == was
      ensures forall i :: i in old(invs) ==>
                var was := old(invs)[i];
                if was.parentRun in Reach(old(runs), old(invs), r) && was.status !in {Completed, Broken, Stopped}
                then invs[i] == Invocation(was.parentRun, was.parentAgent, was.childAgent, was.childRun, Stopped,
                                           Some(message))
                else invs[i] == was
      decreases LiveRuns(runs), 1
    {
      StoppedRows(runs, invs, Reach(runs, invs, r), message);
      if !(r in runs && !IsAgentRunTerminal(runs[r].status)) {
        NothingToStop(runs, invs, r, message);
        return false;
      }
      var children := StopOne(r, message);
      LiveRunsShrink(old(runs), {r}, message, r);
      ghost var hit := ReachAll(runs, invs, children);
      StopChildren(children, message);
      ReachByChildren(old(runs), old(invs), r, message, children);
      CancelTwice(old(runs), old(invs), {r}, hit, message);
      canceledLog := canceledLog + [r];
      assert multiset({r} + hit) == multiset{r} + multiset(hit);
      stopped := true;
    }

    /** The loop over the children of a run that is already stopped. */
    method StopChildren(children: set<RunId>, message: string)
      modifies this
      ensures runs == CancelRuns(old(runs), ReachAll(old(runs), old(invs), children), message)
      ensures invs == CancelInvocations(old(invs), ReachAll(old(runs), old(invs), children), message)
      ensures multiset(canceledLog) == multiset(old(canceledLog)) + multiset(ReachAll(old(runs), old(invs), children))
      decreases LiveRuns(runs), 2
    {
      ghost var done: set<RunId> := {};
      assert ReachAll(runs, invs, done) == {};
      CancelNothing(runs, invs, message);
      var rest := children;
      while rest != {}
        invariant done + rest == children
        invariant runs == CancelRuns(old(runs), ReachAll(old(runs), old(invs), done), message)
        invariant invs == CancelInvocations(old(invs), ReachAll(old(runs), old(invs), done), message)
        invariant multiset(canceledLog) == multiset(old(canceledLog)) + multiset(ReachAll(old(runs), old(invs), done))
        decreases rest
      {
        var c :| c in rest;
        rest := rest - {c};
        StopNext(old(runs), old(invs), done, c, message, runs, invs);
        LiveRunsShrinkOrStay(old(runs), ReachAll(old(runs), old(invs), done), message);
        var _ := CancelAgentRun(c, message);
        done := done + {c};
      }
      assert done == children;
    }

    /** Records the end of an invocation once; ending it by a stop also stops the run behind it. */
    method CompleteInvocation(i: InvocationId, agent: AgentId, status: InvocationStatus, error: Option<string>)
      returns (found: bool)
      requires status.Completed? || status.Broken? || status.Stopped?
      modifies this
      ensures found <==> i in old(invs) && old(invs[i]).parentAgent == agent
      ensures !found || !CanTransitionSubAgent(old(invs[i]).status) ==>
                runs == old(runs) && invs == old(invs) && canceledLog == old(canceledLog)
      ensures found && CanTransitionSubAgent(old(invs[i]).status) ==>
                var ended := old(invs)[i := old(invs[i]).(status := status, error := error)];
                var message := if error.Some? then error.value else "Sub-agent canceled";
                var child := old(invs[i]).childRun;
                var hit := if status.Stopped? && child.Some? then Reach(old(runs), ended, child.value) else {};
                && runs == CancelRuns(old(runs), hit, message)
                && invs == CancelInvocations(ended, hit, message)
                && multiset(canceledLog) == multiset(old(canceledLog)) + multiset(hit)
    {
      if i !in invs || invs[i].parentAgent != agent { return false; }
      found := true;
      if !CanTransitionSubAgent(invs[i].status) { return; }
      var child := invs[i].childRun;
      invs := invs[i := invs[i].(status := status, error := error)];
      var message := if error.Some? then error.value else "Sub-agent canceled";
      if status.Stopped? && child.Some? {
        var _ := CancelAgentRun(child.value, message);
      } else {
        CancelNothing(runs, invs, message);
      }
    }
  }

  /** Stopping one more child on top of those already stopped. */
  lemma {:induction false} StopNext(runs: Runs, invs: Invocations, done: set<RunId>, c: RunId, message: string,
                                    runs': Runs, invs': Invocations)
    requires runs' == CancelRuns(runs, ReachAll(runs, invs, done), message)
    requires invs' == CancelInvocations(invs, ReachAll(runs, invs, done), message)
    ensures CancelRuns(runs', Reach(runs', invs', c), message) ==
            CancelRuns(runs, ReachAll(runs, invs, done + {c}), message)
    ensures CancelInvocations(invs', Reach(runs', invs', c), message)
            == CancelInvocations(invs, ReachAll(runs, invs, done + {c}), message)
    ensures multiset(ReachAll(runs, invs, done)) + multiset(Reach(runs', invs', c))
            == multiset(ReachAll(runs, invs, done + {c}))
  {
    var hit, more := ReachAll(runs, invs, done), Reach(runs', invs', c);
    ReachAllIsClosed(runs, invs, done, c);
    ReachAfterClosed(runs, invs, hit, message, c);
    assert hit + more == ReachAll(runs, invs, done + {c});
    CancelTwice(runs, invs, hit, more, message);
    assert multiset(hit + more) == multiset(hit) + multiset(more);
  }

  ghost function LiveRuns(runs: Runs): set<RunId> {
    set n | n in runs && Live(runs, n)
  }

  lemma LiveRunsShrink(runs: Runs, some: set<RunId>, message: string, r: RunId)
    requires r in some && Live(runs, r)
    ensures LiveRuns(CancelRuns(runs, some, message)) < LiveRuns(runs)
  {
    assert r in LiveRuns(runs) && r !in LiveRuns(CancelRuns(runs, some, message));
  }

  lemma LiveRunsShrinkOrStay(runs: Runs, some: set<RunId>, message: string)
    ensures LiveRuns(CancelRuns(runs, some, message)) <= LiveRuns(runs)
    ensures LiveRuns(CancelRuns(runs, some, message)) == LiveRuns(runs) ||
            LiveRuns(CancelRuns(runs, some, message)) < LiveRuns(runs)
  {
  }

  lemma CancelNothing(runs: Runs, invs: Invocations, message: string)
    ensures CancelRuns(runs, {}, message) == runs && CancelInvocations(invs, {}, message) == invs
  {
  }

  lemma NothingToStop(runs: Runs, invs: Invocations, r: RunId, message: string)
    requires !Live(runs, r)
    ensures Reach(runs, invs, r) == {}
    ensures CancelRuns(runs, {}, message) == runs && CancelInvocations(invs, {}, message) == invs
  {
    ReachIsClosed(runs, invs, r);
  }

  lemma CancelTwice(runs: Runs, invs: Invocations, some: set<RunId>, more: set<RunId>, message: string)
    ensures CancelRuns(CancelRuns(runs, some, message), more, message) == CancelRuns(runs, some + more, message)
    ensures CancelInvocations(CancelInvocations(invs, some, message), more, message)
            == CancelInvocations(invs, some + more, message)
  {
  }
}
