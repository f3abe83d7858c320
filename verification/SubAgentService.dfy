/** The service that checks a batch of hand-overs and, only when all of it passes, writes it. */
module SubAgentService {
  import opened Wrappers
  import opened AgentRuns
  import opened PeerRuns

  /** One step of the walk: the runs seen so far, and those still ahead. */
  lemma WalkStep(runs: Runs, walk: seq<RunId>, seen: seq<RunId>, r: RunId, n: nat, target: AgentId)
    requires r in runs && walk == seen + Ancestry(runs, Some(r), n + 1)
    ensures walk == seen + [r] + Ancestry(runs, runs[r].parent, n)
    ensures PeerHops(runs, seen + [r]) == PeerHops(runs, seen) + (if runs[r].subagent then 1 else 0)
    ensures runs[r].agent == target ==> OnChain(runs, walk, target)
    ensures !OnChain(runs, seen, target) && runs[r].agent != target ==> !OnChain(runs, seen + [r], target)
  {
    assert (seen + [r])[..|seen|] == seen;
    assert walk[|seen|] == r;
    assert seen + ([r] + Ancestry(runs, runs[r].parent, n)) == seen + [r] + Ancestry(runs, runs[r].parent, n);
  }

  predicate HasWorkspace(agents: Directory, caller: AgentId) {
    caller in agents && agents[caller].org.Some? && agents[caller].org != Some("")
  }

  /** The query for a colleague may return this agent. */
  predicate IsMatch(agents: Directory, caller: AgentId, peer: string, a: AgentId) {
    caller in agents && a in agents && Reachable(agents[caller], agents[a], a, peer)
  }

  /** The verdict on the agent the query returned. */
  function Verdict(agents: Directory, caller: AgentId, a: AgentId): Result<AgentId, PeerError>
    requires caller in agents
  {
    if a == caller then Err(PeerSelf)
    else if AgentAskScopeFor(a) !in agents[caller].scopes then Err(PeerNotAllowed)
    else Ok(a)
  }

  /** Whichever agent of that name is taken, the caller may hand work to it under this parent. */
  ghost predicate IsWelcome(agents: Directory, runs: Runs, caller: AgentId, parent: RunId, peer: string) {
    && HasWorkspace(agents, caller)
    && (exists a :: IsMatch(agents, caller, peer, a))
    && (forall a :: IsMatch(agents, caller, peer, a) ==>
         Verdict(agents, caller, a) == Ok(a) && MayHandTo(runs, parent, a))
  }

  /** What the query may return: any agent of the caller's organization that is not revoked, runs where it can be
      reached, and has this id or name. */
  lemma MatchesInFields(agents: Directory, caller: AgentId, peer: string, a: AgentId)
    ensures HasWorkspace(agents, caller) <==>
            caller in agents && agents[caller].org != None && agents[caller].org != Some("")
    ensures IsMatch(agents, caller, peer, a) <==>
            && caller in agents && a in agents && agents[a].org == agents[caller].org && agents[a].revoked == false
            && agents[a].runtime in {"cloud", "hybrid"} && (a == peer || agents[a].name == peer)
  {
  }

  /** What is said of it. */
  lemma VerdictsInFields(agents: Directory, caller: AgentId, a: AgentId)
    requires caller in agents
    ensures a == caller ==> Verdict(agents, caller, a) == Err(PeerSelf)
    ensures a != caller && "agent.ask." + a !in agents[caller].scopes ==>
              Verdict(agents, caller, a) == Err(PeerNotAllowed)
    ensures a != caller && "agent.ask." + a in agents[caller].scopes ==> Verdict(agents, caller, a) == Ok(a)
  {
  }

  /** When nothing stands in the way of a task, whichever agent of that name is taken. */
  lemma WelcomeInFields(agents: Directory, runs: Runs, caller: AgentId, parent: RunId, peer: string)
    ensures IsWelcome(agents, runs, caller, parent, peer) <==>
            && caller in agents && agents[caller].org != None && agents[caller].org != Some("")
            && (exists a :: IsMatch(agents, caller, peer, a))
            && (forall a :: IsMatch(agents, caller, peer, a) ==>
                  a != caller && "agent.ask." + a in agents[caller].scopes && MayHandTo(runs, parent, a))
  {
  }

  ghost predicate AllWelcome(agents: Directory, runs: Runs, caller: AgentId, parent: RunId, tasks: seq<Task>) {
    forall k :: 0 <= k < |tasks| && tasks[k].peer != "" ==> IsWelcome(agents, runs, caller, parent, tasks[k].peer)
  }

  class Service {
    const limits: Limits

    var agents: Directory
    var runs: Runs
    var invs: Invocations
    var nextRun: nat
    var nextInv: nat

    ghost function View(): State
      reads this
    {
      State(agents, runs, invs, nextRun, nextInv)
    }

    constructor (limits: Limits)
      ensures View() == NOTHING && this.limits == limits
    {
      this.limits := limits;
      agents, runs, invs := map[], map[], map[];
      nextRun, nextInv := 0, 0;
    }

    /** The agent a task's name or id stands for; which one is open when several carry the name. */
    method ResolvePeerTarget(caller: AgentId, peer: string) returns (r: Result<AgentId, PeerError>)
      ensures r.Ok? ==> Resolves(agents, caller, peer, r.value)
      ensures r == Err(CallerNotFound) <==> caller !in agents
      ensures caller in agents && !HasWorkspace(agents, caller) ==> r == Err(PeerNotAllowed)
      ensures r == Err(PeerNotFound) <==>
                HasWorkspace(agents, caller) && forall a :: !IsMatch(agents, caller, peer, a)
      ensures HasWorkspace(agents, caller) && r != Err(PeerNotFound) ==>
                exists a :: IsMatch(agents, caller, peer, a) && r == Verdict(agents, caller, a)
      ensures r.Ok? ==>
                && caller in agents && r.value in agents && r.value != caller
                && agents[caller].org != None && agents[caller].org != Some("")
                && agents[r.value].org == agents[caller].org
                && agents[r.value].revoked == false && agents[r.value].runtime in {"cloud", "hybrid"}
                && (r.value == peer || agents[r.value].name == peer)
                && "agent.ask." + r.value in agents[caller].scopes
      ensures r == Err(PeerNotFound) <==>
                && caller in agents && agents[caller].org != None && agents[caller].org != Some("")
                && forall a :: (a in agents && agents[a].org == agents[caller].org && agents[a].revoked == false
                                && agents[a].runtime in {"cloud", "hybrid"}) ==> a != peer && agents[a].name != peer
    {
      if caller !in agents { return Err(CallerNotFound); }
      if agents[caller].org.None? || agents[caller].org == Some("") { return Err(PeerNotAllowed); }
      var found := set a | a in agents && Reachable(agents[caller], agents[a], a, peer);
      if found == {} {
        assert forall a :: a in agents ==> a !in found;
        return Err(PeerNotFound);
      }
      var target :| target in found;
      assert IsMatch(agents, caller, peer, target);
      if target == caller { return Err(PeerSelf); }
      if AgentAskScopeFor(target) !in agents[caller].scopes { return Err(PeerNotAllowed); }
      r := Ok(target);
    }

    /** Walks up the chain: refuses an agent that is already on it, then a chain that is too long. */
    method AssertNoCycle(parent: RunId, target: AgentId) returns (error: Option<PeerError>)
      ensures error.None? <==> MayHandTo(runs, parent, target)
      ensures error == Some(PeerCycle) <==> OnChain(runs, Ancestry(runs, Some(parent), MAX_ANCESTRY_WALK), target)
      ensures error.Some? ==> error.value == PeerCycle || error.value == PeerChainTooDeep
    {
      var cursor: Option<RunId> := Some(parent);
      var peerHops := 0;
      var hops := 0;
      ghost var seen: seq<RunId> := [];
      ghost var walk := Ancestry(runs, Some(parent), MAX_ANCESTRY_WALK);
      while cursor.Some? && hops < MAX_ANCESTRY_WALK && cursor.value in runs
        invariant hops <= MAX_ANCESTRY_WALK
        invariant walk == seen + Ancestry(runs, cursor, MAX_ANCESTRY_WALK - hops)
        invariant !OnChain(runs, seen, target) && peerHops == PeerHops(runs, seen)
        decreases MAX_ANCESTRY_WALK - hops
      {
        WalkStep(runs, walk, seen, cursor.value, MAX_ANCESTRY_WALK - hops - 1, target);
        var run := runs[cursor.value];
        if run.agent == target { return Some(PeerCycle); }
        if run.subagent { peerHops := peerHops + 1; }
        seen := seen + [cursor.value];
        cursor := run.parent;
        hops := hops + 1;
      }
      assert walk == seen;
      if peerHops >= MAX_PEER_CHAIN { return Some(PeerChainTooDeep); }
      error := None;
    }

    /** In a reachable state the walk has seen every ancestor there is. */
    lemma GuardSeesEverything(parent: RunId, target: AgentId)
      requires ForestOk(View(), limits) && parent in runs
      ensures MayHandTo(runs, parent, target)
              <==> !OnChain(runs, Chain(runs, parent), target)
                   && |Chain(runs, parent)| + (if IsOrphan(runs, Top(runs, parent)) then 1 else 0) <= MAX_PEER_CHAIN
    {
      WalkSeesWholeChain(View(), limits, parent);
    }

    method CheckTasks(caller: AgentId, parent: RunId, tasks: seq<Task>)
      returns (r: Result<seq<Option<AgentId>>, PeerError>)
      ensures r.Ok? ==> |r.value| == |tasks|
      ensures r.Ok? ==> forall k :: 0 <= k < |tasks| ==> TargetOk(View(), caller, parent, tasks[k], r.value[k])
      ensures r.Err? ==> r.error !in {DepthExceeded, ParentRunNotFound, ParentRunNotActive, CapExceeded}
      ensures r.Err? ==>
              exists k :: 0 <= k < |tasks| && tasks[k].peer != ""
                          && !IsWelcome(agents, runs, caller, parent, tasks[k].peer)
    {
      var targets: seq<Option<AgentId>> := [];
      for k := 0 to |tasks|
        invariant |targets| == k
        invariant forall j :: 0 <= j < k ==> TargetOk(View(), caller, parent, tasks[j], targets[j])
      {
        if tasks[k].peer == "" {
          targets := targets + [None];
        } else {
          var target := ResolvePeerTarget(caller, tasks[k].peer);
          if target.Err? { return Err(target.error); }
          var refused := AssertNoCycle(parent, target.value);
          if refused.Some? { return Err(refused.value); }
          targets := targets + [Some(target.value)];
        }
      }
      r := Ok(targets);
    }

    /** Checks everything, then writes everything: a rejected batch leaves no row behind. `gateway`
        says, task by task, whether the gateway accepts the run. */
    method CreateInvocations(caller: AgentId, parent: RunId, tasks: seq<Task>, depth: int, gateway: seq<bool>)
      returns (r: Result<seq<Option<AgentId>>, PeerError>)
      requires |gateway| == |tasks|
      modifies `runs, `invs, `nextRun, `nextInv
      ensures r.Err? ==> View() == old(View())
      ensures r.Ok? ==> Acceptable(old(View()), caller, parent, depth, tasks, r.value, limits)
      ensures r.Ok? ==> View() == Step(old(View()), HandOut(caller, parent, depth, tasks, r.value, gateway), limits)
      ensures r == Err(DepthExceeded) <==> depth > limits.maxDepth
      ensures r == Err(ParentRunNotFound) <==>
                depth <= limits.maxDepth && (parent !in old(runs) || old(runs[parent]).agent != caller)
      ensures depth <= limits.maxDepth && parent in old(runs) && old(runs[parent]).agent == caller
                && CanTransitionAgentRunToTerminal(old(runs[parent]).status) ==>
                (r == Err(CapExceeded) <==> |InvocationsOf(old(invs), parent)| + |tasks| > limits.maxPerRun)
      ensures r == Err(ParentRunNotActive) <==>
                depth <= limits.maxDepth && parent in old(runs) && old(runs[parent]).agent == caller
                && !CanTransitionAgentRunToTerminal(old(runs[parent]).status)
      ensures (depth <= limits.maxDepth && parent in old(runs) && old(runs[parent]).agent == caller
               && CanTransitionAgentRunToTerminal(old(runs[parent]).status)
               && |InvocationsOf(old(invs), parent)| + |tasks| <= limits.maxPerRun
               && AllWelcome(agents, old(runs), caller, parent, tasks)) ==> r.Ok?
    {
      if depth > limits.maxDepth { return Err(DepthExceeded); }
      if parent !in runs || runs[parent].agent != caller { return Err(ParentRunNotFound); }
      if !CanTransitionAgentRunToTerminal(runs[parent].status) { return Err(ParentRunNotActive); }
      var existing := set i | i in invs && invs[i].parentRun == parent;
      assert existing == InvocationsOf(invs, parent);
      if |existing| + |tasks| > limits.maxPerRun { return Err(CapExceeded); }
      r := CheckTasks(caller, parent, tasks);
      if r.Err? { return; }
      var first := nextInv;
      WriteRows(caller, parent, r.value);
      Dispatch(first, parent, r.value, gateway);
    }

    method WriteRows(caller: AgentId, parent: RunId, targets: seq<Option<AgentId>>)
      modifies `invs, `nextInv
      ensures View() == CreateRows(old(View()), caller, parent, targets)
    {
      for k := 0 to |targets|
        invariant View() == CreateRows(old(View()), caller, parent, targets[..k])
      {
        assert targets[..k + 1][..k] == targets[..k];
        invs := invs[nextInv := Invocation(parent, caller, targets[k], None, Waiting, None)];
        nextInv := nextInv + 1;
      }
      assert targets[..|targets|] == targets;
    }

    method Dispatch(first: InvocationId, parent: RunId, targets: seq<Option<AgentId>>, gateway: seq<bool>)
      requires |gateway| == |targets|
      modifies `runs, `invs, `nextRun
      ensures View() == DispatchAll(old(View()), first, parent, targets, gateway)
    {
      for k := 0 to |targets|
        invariant View() == DispatchAll(old(View()), first, parent, targets[..k], gateway[..k])
      {
        assert targets[..k + 1][..k] == targets[..k] && gateway[..k + 1][..k] == gateway[..k];
        var i := first + k;
        if targets[k].Some? && i in invs {
          if !gateway[k] {
            invs := invs[i := invs[i].(status := Broken)];
          } else {
            runs := runs[nextRun := Run(targets[k].value, Some(parent), true, Queued, None)];
            invs := invs[i := invs[i].(childRun := Some(nextRun), status := Working)];
            nextRun := nextRun + 1;
          }
        }
      }
      assert targets[..|targets|] == targets && gateway[..|targets|] == gateway;
    }

    method MarkRunning(i: InvocationId, agent: AgentId) returns (found: bool)
      modifies `invs
      ensures found <==> i in old(invs) && old(invs[i]).parentAgent == agent
      ensures invs == if found && old(invs[i]).status.Waiting? then old(invs)[i := old(invs[i]).(status := Working)]
              else old(invs)
    {
      if i !in invs || invs[i].parentAgent != agent { return false; }
      if invs[i].status.Waiting? { invs := invs[i := invs[i].(status := Working)]; }
      found := true;
    }
  }
}
