/** Who may be handed work, and what an accepted batch writes, field by field. */
module PeerHandOut {
  import opened Wrappers
  import opened AgentRuns
  import opened PeerRuns

  /** A colleague by id or name: of the caller's organization, not revoked, on a runtime that can be reached, and
      one the caller has the scope to ask. */
  predicate MayBeAsked(agents: Directory, caller: AgentId, peer: string, a: AgentId) {
    && caller in agents && a in agents && a != caller
    && agents[caller].org != None && agents[caller].org != Some("") && agents[a].org == agents[caller].org
    && agents[a].revoked == false
    && agents[a].runtime in {"cloud", "hybrid"}
    && (a == peer || agents[a].name == peer)
    && "agent.ask." + a in agents[caller].scopes
  }

  lemma ResolvingMeansAsking(agents: Directory, caller: AgentId, peer: string, a: AgentId)
    ensures Resolves(agents, caller, peer, a) <==> MayBeAsked(agents, caller, peer, a)
  {
  }

  // ---------------------------------------------------------------- the guards

  /** A hand-out passes exactly when the depth is allowed, the caller's own run is queued or running, the cap
      holds, and every named target may be asked, is nowhere on the parent's chain, and is at most the third hop. */
  lemma AcceptedInFields(s: State, caller: AgentId, parent: RunId, depth: int, tasks: seq<Task>,
                         targets: seq<Option<AgentId>>, limits: Limits)
    requires ForestOk(s, limits) && parent in s.runs
    ensures Acceptable(s, caller, parent, depth, tasks, targets, limits) <==>
              && depth <= limits.maxDepth
              && s.runs[parent].agent == caller && s.runs[parent].status in {Queued, Running}
              && |set i | i in s.invs && s.invs[i].parentRun == parent| + |tasks| <= limits.maxPerRun
              && |targets| == |tasks|
              && (forall k :: 0 <= k < |tasks| && tasks[k].peer == "" ==> targets[k] == None)
              && (forall k :: 0 <= k < |tasks| && tasks[k].peer != "" ==>
                    && targets[k] != None && MayBeAsked(s.agents, caller, tasks[k].peer, targets[k].value)
                    && IsNewOnChain(s.runs, parent, targets[k].value))
  {
    assert InvocationsOf(s.invs, parent) == set i | i in s.invs && s.invs[i].parentRun == parent;
    forall k | 0 <= k < |tasks| && |targets| == |tasks|
      ensures TargetOk(s, caller, parent, tasks[k], targets[k]) <==>
              if tasks[k].peer == "" then targets[k] == None
              else targets[k] != None && MayBeAsked(s.agents, caller, tasks[k].peer, targets[k].value)
                   && IsNewOnChain(s.runs, parent, targets[k].value)
    {
      if targets[k] != None {
        ResolvingMeansAsking(s.agents, caller, tasks[k].peer, targets[k].value);
        WalkIsOfNewAgents(s, limits, parent, targets[k].value);
      }
    }
  }

  lemma WalkIsOfNewAgents(s: State, limits: Limits, parent: RunId, target: AgentId)
    requires ForestOk(s, limits) && parent in s.runs
    ensures MayHandTo(s.runs, parent, target) <==> IsNewOnChain(s.runs, parent, target)
  {
    WalkSeesWholeChain(s, limits, parent);
  }

  ghost predicate IsNewOnChain(runs: Runs, parent: RunId, target: AgentId)
    requires WellFounded(runs) && parent in runs
  {
    var chain := Chain(runs, parent);
    && (forall j :: 0 <= j < |chain| && chain[j] in runs ==> runs[chain[j]].agent != target)
    && |chain| + (if IsOrphan(runs, Top(runs, parent)) then 1 else 0) <= 3
  }

  // ---------------------------------------------------------------- the rows

  /** The row of one task: waiting for the caller itself, broken because the gateway refused, or working for a
      new run of the named agent. */
  ghost predicate IsHandedOut(s: State, now: State, caller: AgentId, parent: RunId, targets: seq<Option<AgentId>>,
                              accepted: seq<bool>, i: InvocationId)
    requires s.nextInv <= i < s.nextInv + |targets| && |accepted| == |targets|
  {
    && i in now.invs
    && var row, target := now.invs[i], targets[i - s.nextInv];
    && row.parentRun == parent && row.parentAgent == caller && row.childAgent == target && row.error == None
    && (if target == None then row.status == Waiting && row.childRun == None
        else if !accepted[i - s.nextInv] then row.status == Broken && row.childRun == None
        else row.status == Working && row.childRun != None && row.childRun.value !in s.runs
             && row.childRun.value in now.runs
             && now.runs[row.childRun.value] == Run(target.value, Some(parent), true, Queued, None))
  }

  ghost predicate StartedIn(s: State, now: State, n: nat, r: RunId) {
    exists i: InvocationId :: s.nextInv <= i < s.nextInv + n && i in now.invs && now.invs[i].childRun == Some(r)
  }

  /** The first `n` tasks are handed out, the others wait. */
  ghost predicate RowsHandedOut(s: State, now: State, caller: AgentId, parent: RunId, targets: seq<Option<AgentId>>,
                                accepted: seq<bool>, n: nat)
    requires n <= |targets| == |accepted|
  {
    && (forall i :: i in now.invs <==> i in s.invs || s.nextInv <= i < s.nextInv + |targets|)
    && (forall i :: i in s.invs ==> now.invs[i] == s.invs[i])
    && (forall i :: s.nextInv <= i < s.nextInv + n ==> IsHandedOut(s, now, caller, parent, targets, accepted, i))
    && (forall i :: s.nextInv + n <= i < s.nextInv + |targets| ==>
          now.invs[i] == Invocation(parent, caller, targets[i - s.nextInv], None, Waiting, None))
  }

  ghost predicate OnlyStarts(s: State, now: State, n: nat) {
    && now.agents == s.agents && now.nextRun >= s.nextRun
    && (forall r :: r in s.runs ==> r in now.runs && now.runs[r] == s.runs[r])
    && (forall r :: r in now.runs ==> r < now.nextRun && (r in s.runs || StartedIn(s, now, n, r)))
  }

  ghost predicate NumbersOk(s: State) {
    (forall r :: r in s.runs ==> r < s.nextRun) && forall i :: i in s.invs ==> i < s.nextInv
  }

  function Dispatched(s: State, i: InvocationId, parent: RunId, target: Option<AgentId>, accepted: bool): State {
    if target.None? then s else DispatchPeerRun(s, i, parent, target.value, accepted)
  }

  lemma DispatchedLast(rows: State, first: InvocationId, parent: RunId, targets: seq<Option<AgentId>>,
                       accepted: seq<bool>, n: nat)
    requires 0 < n <= |targets| == |accepted|
    ensures DispatchAll(rows, first, parent, targets[..n], accepted[..n])
            == Dispatched(DispatchAll(rows, first, parent, targets[..n - 1], accepted[..n - 1]), first + n - 1, parent,
                          targets[n - 1], accepted[n - 1])
  {
    assert targets[..n][..n - 1] == targets[..n - 1] && accepted[..n][..n - 1] == accepted[..n - 1];
  }

  /** One more task: what becomes of its row, and that nothing else changes. */
  lemma OneDispatched(before: State, i: InvocationId, parent: RunId, target: Option<AgentId>, accepted: bool)
    requires i in before.invs
    ensures var now, was := Dispatched(before, i, parent, target, accepted), before.invs[i];
            && now.agents == before.agents && now.nextInv == before.nextInv
            && now.invs.Keys == before.invs.Keys
            && (forall j :: j in before.invs && j != i ==> now.invs[j] == before.invs[j])
            && (if target == None then now == before
                else if !accepted then
                  && now.runs == before.runs && now.nextRun == before.nextRun
                  && now.invs[i] == Invocation(was.parentRun, was.parentAgent, was.childAgent, was.childRun, Broken,
                                               was.error)
                else
                  && now.nextRun == before.nextRun + 1
                  && now.runs == before.runs[before.nextRun := Run(target.value, Some(parent), true, Queued, None)]
                  && now.invs[i] == Invocation(was.parentRun, was.parentAgent, was.childAgent, Some(before.nextRun),
                                               Working, was.error))
  {
  }

  lemma OneMoreRow(s: State, before: State, caller: AgentId, parent: RunId, targets: seq<Option<AgentId>>,
                   accepted: seq<bool>, n: nat)
    requires n < |targets| == |accepted| && NumbersOk(s)
    requires RowsHandedOut(s, before, caller, parent, targets, accepted, n) && OnlyStarts(s, before, n)
    ensures RowsHandedOut(s, Dispatched(before, s.nextInv + n, parent, targets[n], accepted[n]),
                          caller, parent, targets, accepted, n + 1)
  {
    var last := s.nextInv + n;
    var now := Dispatched(before, last, parent, targets[n], accepted[n]);
    OneDispatched(before, last, parent, targets[n], accepted[n]);
    LastRowHandedOut(s, before, caller, parent, targets, accepted, n);
    forall i | s.nextInv <= i < last + 1 ensures IsHandedOut(s, now, caller, parent, targets, accepted, i) {
      if i < last { EarlierRowsStay(s, before, now, caller, parent, targets, accepted, i); }
    }
  }

  lemma LastRowHandedOut(s: State, before: State, caller: AgentId, parent: RunId, targets: seq<Option<AgentId>>,
                         accepted: seq<bool>, n: nat)
    requires n < |targets| == |accepted| && NumbersOk(s) && before.nextRun >= s.nextRun
    requires s.nextInv + n in before.invs
    requires before.invs[s.nextInv + n] == Invocation(parent, caller, targets[n], None, Waiting, None)
    ensures IsHandedOut(s, Dispatched(before, s.nextInv + n, parent, targets[n], accepted[n]),
                        caller, parent, targets, accepted, s.nextInv + n)
  {
  }

  lemma EarlierRowsStay(s: State, before: State, now: State, caller: AgentId, parent: RunId,
                        targets: seq<Option<AgentId>>, accepted: seq<bool>, i: InvocationId)
    requires s.nextInv <= i < s.nextInv + |targets| && |accepted| == |targets|
    requires IsHandedOut(s, before, caller, parent, targets, accepted, i)
    requires i in now.invs && now.invs[i] == before.invs[i]
    requires forall r :: r in before.runs ==> r in now.runs && now.runs[r] == before.runs[r]
    ensures IsHandedOut(s, now, caller, parent, targets, accepted, i)
  {
  }

  lemma OneMoreStart(s: State, before: State, parent: RunId, target: Option<AgentId>, accepted: bool, n: nat)
    requires OnlyStarts(s, before, n) && s.nextInv + n in before.invs && NumbersOk(s)
    ensures OnlyStarts(s, Dispatched(before, s.nextInv + n, parent, target, accepted), n + 1)
  {
    var last := s.nextInv + n;
    var now := Dispatched(before, last, parent, target, accepted);
    OneDispatched(before, last, parent, target, accepted);
    forall r | r in now.runs && r !in s.runs ensures StartedIn(s, now, n + 1, r) {
      if r in before.runs {
        var i: InvocationId :| s.nextInv <= i < last && i in before.invs && before.invs[i].childRun == Some(r);
        assert now.invs[i] == before.invs[i];
      } else {
        assert now.invs[last].childRun == Some(r);
      }
    }
  }

  ghost predicate HandedOut(s: State, now: State, caller: AgentId, parent: RunId, targets: seq<Option<AgentId>>,
                            accepted: seq<bool>, n: nat)
    requires n <= |targets| == |accepted|
  {
    RowsHandedOut(s, now, caller, parent, targets, accepted, n) && OnlyStarts(s, now, n)
  }

  lemma NoneYet(s: State, caller: AgentId, parent: RunId, targets: seq<Option<AgentId>>, accepted: seq<bool>)
    requires |targets| == |accepted| && NumbersOk(s)
    ensures HandedOut(s, DispatchAll(CreateRows(s, caller, parent, targets), s.nextInv, parent, [], []),
                      caller, parent, targets, accepted, 0)
  {
    NewRowsShape(s.invs, s.nextInv, caller, parent, targets);
  }

  lemma OneMore(s: State, before: State, caller: AgentId, parent: RunId, targets: seq<Option<AgentId>>,
                accepted: seq<bool>, n: nat)
    requires n < |targets| == |accepted| && NumbersOk(s) && HandedOut(s, before, caller, parent, targets, accepted, n)
    ensures HandedOut(s, Dispatched(before, s.nextInv + n, parent, targets[n], accepted[n]),
                      caller, parent, targets, accepted, n + 1)
  {
    OneMoreRow(s, before, caller, parent, targets, accepted, n);
    OneMoreStart(s, before, parent, targets[n], accepted[n], n);
  }

  /** The state after the first `n` tasks. */
  function After(s: State, caller: AgentId, parent: RunId, targets: seq<Option<AgentId>>, accepted: seq<bool>,
                 n: nat): State
    requires n <= |targets| == |accepted|
  {
    if n == 0 then DispatchAll(CreateRows(s, caller, parent, targets), s.nextInv, parent, [], [])
    else
      var before := After(s, caller, parent, targets, accepted, n - 1);
      Dispatched(before, s.nextInv + n - 1, parent, targets[n - 1], accepted[n - 1])
  }

  lemma {:induction false} AfterIsDispatched(s: State, caller: AgentId, parent: RunId, targets: seq<Option<AgentId>>,
                                             accepted: seq<bool>, n: nat)
    requires n <= |targets| == |accepted|
    ensures After(s, caller, parent, targets, accepted, n)
            == DispatchAll(CreateRows(s, caller, parent, targets), s.nextInv, parent, targets[..n], accepted[..n])
  {
    if n == 0 {
      assert targets[..0] == [] && accepted[..0] == [];
    } else {
      AfterIsDispatched(s, caller, parent, targets, accepted, n - 1);
      DispatchedLast(CreateRows(s, caller, parent, targets), s.nextInv, parent, targets, accepted, n);
    }
  }

  lemma {:induction false} AllHandedOut(s: State, caller: AgentId, parent: RunId, targets: seq<Option<AgentId>>,
                                        accepted: seq<bool>, n: nat)
    requires n <= |targets| == |accepted| && NumbersOk(s)
    ensures HandedOut(s, After(s, caller, parent, targets, accepted, n), caller, parent, targets, accepted, n)
  {
    if n == 0 {
      NoneYet(s, caller, parent, targets, accepted);
    } else {
      var m := n - 1;
      var before := After(s, caller, parent, targets, accepted, m);
      AllHandedOut(s, caller, parent, targets, accepted, m);
      OneMore(s, before, caller, parent, targets, accepted, m);
      assert After(s, caller, parent, targets, accepted, n)
             == Dispatched(before, s.nextInv + m, parent, targets[m], accepted[m]);
    }
  }

  /** An accepted batch: one row per task as above, no other row or run touched, and every new run belongs to an
      agent that may be asked, under a task that names it and that the gateway accepted. */
  lemma HandOutInFields(s: State, caller: AgentId, parent: RunId, depth: int, tasks: seq<Task>,
                        targets: seq<Option<AgentId>>, accepted: seq<bool>, limits: Limits)
    requires ForestOk(s, limits) && Acceptable(s, caller, parent, depth, tasks, targets, limits)
    requires |accepted| == |targets|
    ensures var now := Step(s, HandOut(caller, parent, depth, tasks, targets, accepted), limits);
            && HandedOut(s, now, caller, parent, targets, accepted, |targets|)
            && (forall r :: r in now.runs && r !in s.runs ==>
                  IsAskedFor(s, now.runs[r], caller, parent, tasks, accepted))
  {
    BatchIsHandedOut(s, caller, parent, depth, tasks, targets, accepted, limits);
    var now := Step(s, HandOut(caller, parent, depth, tasks, targets, accepted), limits);
    forall r | r in now.runs && r !in s.runs ensures IsAskedFor(s, now.runs[r], caller, parent, tasks, accepted) {
      var k := NewRunMayBeAsked(s, now, caller, parent, depth, tasks, targets, accepted, limits, r);
    }
  }

  /** A queued run under the parent, of an agent that a task names, that may be asked and that the gateway took. */
  ghost predicate IsAskedFor(s: State, run: Run, caller: AgentId, parent: RunId, tasks: seq<Task>, accepted: seq<bool>)
    requires |accepted| == |tasks|
  {
    exists k :: 0 <= k < |tasks| && tasks[k].peer != "" && accepted[k]
                && MayBeAsked(s.agents, caller, tasks[k].peer, run.agent)
                && run == Run(run.agent, Some(parent), true, Queued, None)
  }

  lemma BatchIsHandedOut(s: State, caller: AgentId, parent: RunId, depth: int, tasks: seq<Task>,
                         targets: seq<Option<AgentId>>, accepted: seq<bool>, limits: Limits)
    requires ForestOk(s, limits) && Acceptable(s, caller, parent, depth, tasks, targets, limits)
    requires |accepted| == |targets|
    ensures HandedOut(s, Step(s, HandOut(caller, parent, depth, tasks, targets, accepted), limits),
                      caller, parent, targets, accepted, |targets|)
  {
    NumbersAreOk(s, limits);
    AllHandedOut(s, caller, parent, targets, accepted, |targets|);
    StepIsAfter(s, caller, parent, depth, tasks, targets, accepted, limits);
  }

  lemma NumbersAreOk(s: State, limits: Limits)
    requires ForestOk(s, limits)
    ensures NumbersOk(s)
  {
  }

  lemma StepIsAfter(s: State, caller: AgentId, parent: RunId, depth: int, tasks: seq<Task>,
                    targets: seq<Option<AgentId>>, accepted: seq<bool>, limits: Limits)
    requires Acceptable(s, caller, parent, depth, tasks, targets, limits) && |accepted| == |targets|
    ensures Step(s, HandOut(caller, parent, depth, tasks, targets, accepted), limits)
            == After(s, caller, parent, targets, accepted, |targets|)
  {
    assert targets[..|targets|] == targets && accepted[..|targets|] == accepted;
    AfterIsDispatched(s, caller, parent, targets, accepted, |targets|);
  }

  lemma NewRunMayBeAsked(s: State, now: State, caller: AgentId, parent: RunId, depth: int, tasks: seq<Task>,
                         targets: seq<Option<AgentId>>, accepted: seq<bool>, limits: Limits, r: RunId) returns (k: nat)
    requires Acceptable(s, caller, parent, depth, tasks, targets, limits) && |accepted| == |targets|
    requires HandedOut(s, now, caller, parent, targets, accepted, |targets|) && r in now.runs && r !in s.runs
    ensures k < |tasks| && tasks[k].peer != "" && accepted[k]
    ensures MayBeAsked(s.agents, caller, tasks[k].peer, now.runs[r].agent)
    ensures now.runs[r] == Run(now.runs[r].agent, Some(parent), true, Queued, None)
  {
    assert StartedIn(s, now, |targets|, r);
    var i: InvocationId :| s.nextInv <= i < s.nextInv + |targets| && i in now.invs && now.invs[i].childRun == Some(r);
    k := i - s.nextInv;
    assert IsHandedOut(s, now, caller, parent, targets, accepted, i);
    assert TargetOk(s, caller, parent, tasks[k], targets[k]);
    ResolvingMeansAsking(s.agents, caller, tasks[k].peer, targets[k].value);
  }
}
