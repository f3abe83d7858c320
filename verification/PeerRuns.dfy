/** Handing work to other agents: the guards that keep every tree of runs finite, acyclic and small. */
module PeerRuns {
  import opened Wrappers
  import opened AgentRuns

  datatype Agent = Agent(org: Option<string>, revoked: bool, runtime: string, name: string, scopes: set<string>)

  type Directory = map<AgentId, Agent>

  /** `peer` is the trimmed name or id of another agent, empty for a nested child of the same one. */
  datatype Task = Task(peer: string)

  datatype PeerError =
    | DepthExceeded | ParentRunNotFound | ParentRunNotActive | CapExceeded
    | CallerNotFound | PeerNotAllowed | PeerNotFound | PeerSelf | PeerCycle | PeerChainTooDeep

  const MAX_ANCESTRY_WALK: nat := 16
  const MAX_PEER_CHAIN: nat := 3

  datatype Limits = Limits(maxPerRun: nat, maxDepth: int)

  /** The cap on invocations per parent, from a parsed environment value. */
  function SubAgentMaxPerRun(parsed: Option<real>): (cap: nat)
    ensures cap <= 32
    ensures cap == 0 <==> parsed.Some? && 0.0 < parsed.value < 1.0
    ensures parsed == None || parsed.value <= 0.0 ==> cap == 8
    ensures parsed != None && parsed.value > 0.0 ==>
              cap as real <= parsed.value && (cap < 32 ==> parsed.value < (cap + 1) as real)
  {
    if parsed.Some? && parsed.value > 0.0 then
      var whole := parsed.value.Floor;
      if whole < 32 then whole else 32
    else 8
  }

  // ---------------------------------------------------------------- state

  /** Runs and invocations are named by the order of their creation. */
  datatype State = State(agents: Directory, runs: Runs, invs: Invocations, nextRun: nat, nextInv: nat)

  datatype Action =
    | StartRun(agent: AgentId)
    | ChangeAgents(agents: Directory)
    | SetRunStatus(run: RunId, status: RunStatus)
    | SetInvocationStatus(invocation: InvocationId, state: InvocationStatus)
    | DeleteRuns(gone: set<RunId>)
    | HandOut(caller: AgentId, parent: RunId, depth: int, tasks: seq<Task>,
              targets: seq<Option<AgentId>>, accepted: seq<bool>)

  const NOTHING := State(map[], map[], map[], 0, 0)

  function AgentAskScopeFor(agent: AgentId): string {
    "agent.ask." + agent
  }

  predicate Reachable(caller: Agent, a: Agent, id: AgentId, peer: string) {
    a.org == caller.org && !a.revoked && (a.runtime == "cloud" || a.runtime == "hybrid") &&
      (id == peer || a.name == peer)
  }

  /** `target` is an agent the caller may hand work to under this name. */
  predicate Resolves(agents: Directory, caller: AgentId, peer: string, target: AgentId) {
    && caller in agents && agents[caller].org.Some? && agents[caller].org != Some("")
    && target in agents && Reachable(agents[caller], agents[target], target, peer)
    && target != caller
    && AgentAskScopeFor(target) in agents[caller].scopes
  }

  /** The walk up the `parentRunId` links, at most `n` runs long. */
  function Ancestry(runs: Runs, cursor: Option<RunId>, n: nat): seq<RunId>
    decreases n
  {
    if n == 0 || cursor.None? || cursor.value !in runs then []
    else [cursor.value] + Ancestry(runs, runs[cursor.value].parent, n - 1)
  }

  function PeerHops(runs: Runs, chain: seq<RunId>): nat {
    if chain == [] then 0
    else PeerHops(runs, chain[..|chain| - 1])
         + (if chain[|chain| - 1] in runs && runs[chain[|chain| - 1]].subagent then 1 else 0)
  }

  ghost predicate OnChain(runs: Runs, chain: seq<RunId>, agent: AgentId) {
    exists k :: 0 <= k < |chain| && chain[k] in runs && runs[chain[k]].agent == agent
  }

  ghost predicate MayHandTo(runs: Runs, parent: RunId, target: AgentId) {
    var walk := Ancestry(runs, Some(parent), MAX_ANCESTRY_WALK);
    !OnChain(runs, walk, target) && PeerHops(runs, walk) < MAX_PEER_CHAIN
  }

  ghost function InvocationsOf(invs: Invocations, parent: RunId): set<InvocationId> {
    set i | i in invs && invs[i].parentRun == parent
  }

  ghost predicate Acceptable(s: State, caller: AgentId, parent: RunId, depth: int, tasks: seq<Task>,
                             targets: seq<Option<AgentId>>, limits: Limits) {
    && depth <= limits.maxDepth
    && parent in s.runs && s.runs[parent].agent == caller
    && CanTransitionAgentRunToTerminal(s.runs[parent].status)
    && |InvocationsOf(s.invs, parent)| + |tasks| <= limits.maxPerRun
    && |targets| == |tasks|
    && (forall k :: 0 <= k < |tasks| ==> TargetOk(s, caller, parent, tasks[k], targets[k]))
  }

  ghost predicate TargetOk(s: State, caller: AgentId, parent: RunId, task: Task, target: Option<AgentId>) {
    if task.peer == "" then target.None?
    else target.Some? && Resolves(s.agents, caller, task.peer, target.value) && MayHandTo(s.runs, parent, target.value)
  }

  // ---------------------------------------------------------------- steps

  /** The invocation rows of a batch, numbered from `first`. */
  function NewRows(invs: Invocations, first: nat, caller: AgentId, parent: RunId,
                   targets: seq<Option<AgentId>>): Invocations {
    if targets == [] then invs
    else
      var n := |targets| - 1;
      NewRows(invs, first, caller, parent, targets[..n])
        [first + n := Invocation(parent, caller, targets[n], None, Waiting, None)]
  }

  function CreateRows(s: State, caller: AgentId, parent: RunId, targets: seq<Option<AgentId>>): State {
    s.(invs := NewRows(s.invs, s.nextInv, caller, parent, targets), nextInv := s.nextInv + |targets|)
  }

  /** Starts the real run behind an invocation, or marks the invocation broken if the gateway refuses. */
  function DispatchPeerRun(s: State, i: InvocationId, parent: RunId, target: AgentId, accepted: bool): State {
    if i !in s.invs then s
    else if !accepted then s.(invs := s.invs[i := s.invs[i].(status := Broken)])
    else
      s.(runs := s.runs[s.nextRun := Run(target, Some(parent), true, Queued, None)],
         invs := s.invs[i := s.invs[i].(childRun := Some(s.nextRun), status := Working)],
         nextRun := s.nextRun + 1)
  }

  function DispatchAll(s: State, first: InvocationId, parent: RunId, targets: seq<Option<AgentId>>,
                       accepted: seq<bool>): State
    requires |accepted| == |targets|
  {
    if targets == [] then s
    else
      var n := |targets| - 1;
      var before := DispatchAll(s, first, parent, targets[..n], accepted[..n]);
      if targets[n].None? then before else DispatchPeerRun(before, first + n, parent, targets[n].value, accepted[n])
  }

  function HandOutStep(s: State, caller: AgentId, parent: RunId, targets: seq<Option<AgentId>>,
                       accepted: seq<bool>): State
    requires |accepted| == |targets|
  {
    DispatchAll(CreateRows(s, caller, parent, targets), s.nextInv, parent, targets, accepted)
  }

  /** Deleting a conversation deletes its runs and, through the foreign keys, the invocations they own; the
      runs and invocations that pointed to them lose the link. A child keeps its invocation kind. */
  function WithoutRuns(runs: Runs, gone: set<RunId>): Runs {
    map r | r in runs && r !in gone ::
      if runs[r].parent.Some? && runs[r].parent.value in gone then runs[r].(parent := None) else runs[r]
  }

  function WithoutOwners(invs: Invocations, gone: set<RunId>): Invocations {
    map i | i in invs && invs[i].parentRun !in gone ::
      if invs[i].childRun.Some? && invs[i].childRun.value in gone then invs[i].(childRun := None) else invs[i]
  }

  ghost function Step(s: State, a: Action, limits: Limits): State {
    match a
    case StartRun(agent) =>
      s.(runs := s.runs[s.nextRun := Run(agent, None, false, Queued, None)], nextRun := s.nextRun + 1)
    case ChangeAgents(agents) => s.(agents := agents)
    case SetRunStatus(r, status) =>
      if r in s.runs then s.(runs := s.runs[r := s.runs[r].(status := status)]) else s
    case SetInvocationStatus(i, status) =>
      if i in s.invs then s.(invs := s.invs[i := s.invs[i].(status := status)]) else s
    case DeleteRuns(gone) => s.(runs := WithoutRuns(s.runs, gone), invs := WithoutOwners(s.invs, gone))
    case HandOut(caller, parent, depth, tasks, targets, accepted) =>
      if Acceptable(s, caller, parent, depth, tasks, targets, limits) && |accepted| == |targets|
      then HandOutStep(s, caller, parent, targets, accepted) else s
  }

  ghost function RunAll(s: State, actions: seq<Action>, limits: Limits): State {
    if actions == [] then s
    else Step(RunAll(s, actions[..|actions| - 1], limits), actions[|actions| - 1], limits)
  }

  // ---------------------------------------------------------------- chains

  /** Parents exist and are older than their children. */
  ghost predicate WellFounded(runs: Runs) {
    forall r :: r in runs && runs[r].parent.Some? ==> runs[r].parent.value < r && runs[r].parent.value in runs
  }

  /** A run and all its ancestors, up to the root. */
  ghost function Chain(runs: Runs, r: RunId): seq<RunId>
    requires WellFounded(runs) && r in runs
    decreases r
  {
    [r] + (if runs[r].parent.None? then [] else Chain(runs, runs[r].parent.value))
  }

  ghost predicate ChainOk(runs: Runs, r: RunId)
    requires WellFounded(runs) && r in runs
  {
    var chain := Chain(runs, r);
    && |chain| <= MAX_PEER_CHAIN + 1
    && (forall k :: 0 <= k < |chain| ==> chain[k] in runs)
    && (forall j, k :: 0 <= j < k < |chain| ==> chain[j] != chain[k] && runs[chain[j]].agent != runs[chain[k]].agent)
  }

  ghost predicate RunsOk(runs: Runs, nextRun: nat) {
    && WellFounded(runs)
    && (forall r :: r in runs ==> r < nextRun && (runs[r].parent.Some? ==> runs[r].subagent))
    && (forall r :: r in runs ==> ChainOk(runs, r))
  }

  /** Every handed-out run is the child of an invocation its parent owns. */
  ghost predicate LinksOk(runs: Runs, invs: Invocations) {
    forall r :: r in runs && runs[r].parent.Some? ==> exists i :: StartedBy(invs, r, runs[r].parent.value, i)
  }

  ghost predicate StartedBy(invs: Invocations, r: RunId, parent: RunId, i: InvocationId) {
    i in invs && invs[i].childRun == Some(r) && invs[i].parentRun == parent
  }

  ghost predicate CapOk(invs: Invocations, nextInv: nat, cap: nat) {
    && (forall i :: i in invs ==> i < nextInv)
    && (forall p :: |InvocationsOf(invs, p)| <= cap)
  }

  /** What the guards establish, in every reachable state. */
  ghost predicate ForestOk(s: State, limits: Limits) {
    RunsOk(s.runs, s.nextRun) && LinksOk(s.runs, s.invs) && CapOk(s.invs, s.nextInv, limits.maxPerRun)
  }

  /** `later` has every run of `runs`, with the same agent and the same parent. */
  ghost predicate Extends(runs: Runs, later: Runs) {
    forall r :: r in runs ==>
      r in later && later[r].agent == runs[r].agent && later[r].parent == runs[r].parent &&
        later[r].subagent == runs[r].subagent
  }

  lemma {:induction false} ChainsStay(runs: Runs, later: Runs, r: RunId)
    requires WellFounded(runs) && WellFounded(later) && Extends(runs, later) && r in runs
    ensures Chain(later, r) == Chain(runs, r)
    ensures ChainOk(runs, r) ==> ChainOk(later, r)
    decreases r
  {
    if runs[r].parent.Some? { ChainsStay(runs, later, runs[r].parent.value); }
  }

  lemma {:induction false} WalkIsPrefix(runs: Runs, r: RunId, n: nat)
    requires WellFounded(runs) && r in runs
    ensures Ancestry(runs, Some(r), n) == Chain(runs, r)[..if n < |Chain(runs, r)| then n else |Chain(runs, r)|]
    decreases r
  {
    if n > 0 && runs[r].parent.Some? { WalkIsPrefix(runs, runs[r].parent.value, n - 1); }
  }

  /** The first ancestor. */
  ghost function Top(runs: Runs, r: RunId): RunId
    requires WellFounded(runs) && r in runs
    ensures Top(runs, r) in runs && runs[Top(runs, r)].parent.None?
    decreases r
  {
    if runs[r].parent.None? then r else Top(runs, runs[r].parent.value)
  }

  /** A handed-out run whose parent was deleted. */
  predicate IsOrphan(runs: Runs, r: RunId) {
    r in runs && runs[r].subagent && runs[r].parent.None?
  }

  lemma {:induction false} ChainHops(runs: Runs, r: RunId)
    requires WellFounded(runs) && r in runs
    requires forall q :: q in runs && runs[q].parent.Some? ==> runs[q].subagent
    ensures PeerHops(runs, Chain(runs, r)) == |Chain(runs, r)| - 1 + (if IsOrphan(runs, Top(runs, r)) then 1 else 0)
    decreases r
  {
    var chain := Chain(runs, r);
    if runs[r].parent.Some? {
      var up := Chain(runs, runs[r].parent.value);
      ChainHops(runs, runs[r].parent.value);
      HopsOfCons(runs, r, up);
    } else {
      assert chain[..0] == [];
    }
  }

  lemma {:induction false} HopsOfCons(runs: Runs, r: RunId, chain: seq<RunId>)
    ensures PeerHops(runs, [r] + chain) == PeerHops(runs, chain) + (if r in runs && runs[r].subagent then 1 else 0)
  {
    if chain == [] {
      assert ([r] + chain)[..0] == [];
    } else {
      HopsOfCons(runs, r, chain[..|chain| - 1]);
      assert ([r] + chain)[..|chain|] == [r] + chain[..|chain| - 1];
    }
  }

  /** The ancestry walk sees the whole chain, so the two guards decide on all of it; the hops it counts are
      those of the chain, and one more if the top was handed out by a run that is gone. */
  lemma {:induction false} WalkSeesWholeChain(s: State, limits: Limits, r: RunId)
    requires ForestOk(s, limits) && r in s.runs
    ensures Ancestry(s.runs, Some(r), MAX_ANCESTRY_WALK) == Chain(s.runs, r)
    ensures PeerHops(s.runs, Chain(s.runs, r))
            == |Chain(s.runs, r)| - 1 + (if IsOrphan(s.runs, Top(s.runs, r)) then 1 else 0)
  {
    WalkIsPrefix(s.runs, r, MAX_ANCESTRY_WALK);
    ChainHops(s.runs, r);
    assert ChainOk(s.runs, r);
  }

  // ---------------------------------------------------------------- steps keep the forest

  lemma {:induction false} ChainIsDown(runs: Runs, r: RunId)
    requires WellFounded(runs) && r in runs
    ensures forall k :: 0 <= k < |Chain(runs, r)| ==> Chain(runs, r)[k] <= r
    decreases r
  {
    if runs[r].parent.Some? { ChainIsDown(runs, runs[r].parent.value); }
  }

  lemma FreshChildOk(runs: Runs, nextRun: nat, parent: RunId, target: AgentId)
    requires RunsOk(runs, nextRun) && parent in runs
    requires |Chain(runs, parent)| <= MAX_PEER_CHAIN && !OnChain(runs, Chain(runs, parent), target)
    ensures var later := runs[nextRun := Run(target, Some(parent), true, Queued, None)];
            && RunsOk(later, nextRun + 1) && Extends(runs, later)
            && Chain(later, nextRun) == [nextRun] + Chain(runs, parent)
            && Chain(later, parent) == Chain(runs, parent)
  {
    var later := runs[nextRun := Run(target, Some(parent), true, Queued, None)];
    assert WellFounded(later);
    ChainsStay(runs, later, parent);
    ChainIsDown(runs, parent);
    assert ChainOk(later, nextRun);
    forall r | r in runs ensures ChainOk(later, r) { ChainsStay(runs, later, r); }
  }

  lemma FreshRootOk(runs: Runs, nextRun: nat, agent: AgentId)
    requires RunsOk(runs, nextRun)
    ensures RunsOk(runs[nextRun := Run(agent, None, false, Queued, None)], nextRun + 1)
  {
    var later := runs[nextRun := Run(agent, None, false, Queued, None)];
    assert WellFounded(later) && Extends(runs, later);
    RootIsOk(later, nextRun);
    forall r | r in runs ensures ChainOk(later, r) { ChainsStay(runs, later, r); }
  }

  lemma RootIsOk(runs: Runs, r: RunId)
    requires WellFounded(runs) && r in runs && runs[r].parent.None?
    ensures ChainOk(runs, r)
  {
    assert Chain(runs, r) == [r];
  }

  lemma {:induction false} SameRunsOk(runs: Runs, later: Runs, nextRun: nat)
    requires RunsOk(runs, nextRun) && later.Keys == runs.Keys && Extends(runs, later)
    ensures RunsOk(later, nextRun)
  {
    assert WellFounded(later);
    forall r | r in later ensures ChainOk(later, r) { ChainsStay(runs, later, r); }
  }

  /** New runs without a parent, and invocations that keep their links, leave every link in place. */
  lemma LinksStay(runs: Runs, invs: Invocations, later: Runs, after: Invocations)
    requires LinksOk(runs, invs)
    requires forall r :: r in later && later[r].parent.Some? ==> r in runs && runs[r].parent == later[r].parent
    requires forall i :: i in invs && invs[i].childRun.Some? ==>
               i in after && after[i].parentRun == invs[i].parentRun && after[i].childRun == invs[i].childRun
    ensures LinksOk(later, after)
  {
    forall r | r in later && later[r].parent.Some? ensures exists i :: StartedBy(after, r, later[r].parent.value, i) {
      var i :| StartedBy(invs, r, runs[r].parent.value, i);
      assert StartedBy(after, r, later[r].parent.value, i);
    }
  }

  lemma CapStays(invs: Invocations, after: Invocations, nextInv: nat, cap: nat)
    requires CapOk(invs, nextInv, cap) && after.Keys == invs.Keys
    requires forall i :: i in invs ==> after[i].parentRun == invs[i].parentRun
    ensures CapOk(after, nextInv, cap)
  {
    forall p ensures InvocationsOf(after, p) == InvocationsOf(invs, p) {}
  }

  lemma CapGrows(invs: Invocations, nextInv: nat, cap: nat, row: Invocation)
    requires CapOk(invs, nextInv, cap) && |InvocationsOf(invs, row.parentRun)| < cap
    ensures CapOk(invs[nextInv := row], nextInv + 1, cap)
    ensures |InvocationsOf(invs[nextInv := row], row.parentRun)| == |InvocationsOf(invs, row.parentRun)| + 1
  {
    var after := invs[nextInv := row];
    assert InvocationsOf(after, row.parentRun) == InvocationsOf(invs, row.parentRun) + {nextInv};
    forall p | p != row.parentRun ensures InvocationsOf(after, p) == InvocationsOf(invs, p) {}
  }

  lemma {:induction false} NewRowsShape(invs: Invocations, first: nat, caller: AgentId, parent: RunId,
                                        targets: seq<Option<AgentId>>)
    requires forall i :: i in invs ==> i < first
    ensures var after := NewRows(invs, first, caller, parent, targets);
            && (forall i :: i in after <==> i in invs || first <= i < first + |targets|)
            && (forall i :: i in invs ==> after[i] == invs[i])
            && (forall i :: first <= i < first + |targets| ==>
                  after[i] == Invocation(parent, caller, targets[i - first], None, Waiting, None))
  {
    if targets != [] { NewRowsShape(invs, first, caller, parent, targets[..|targets| - 1]); }
  }

  lemma {:induction false} NewRowsKeepCap(invs: Invocations, first: nat, caller: AgentId, parent: RunId,
                                          targets: seq<Option<AgentId>>, cap: nat)
    requires CapOk(invs, first, cap) && |InvocationsOf(invs, parent)| + |targets| <= cap
    ensures var after := NewRows(invs, first, caller, parent, targets);
            && CapOk(after, first + |targets|, cap)
            && |InvocationsOf(after, parent)| == |InvocationsOf(invs, parent)| + |targets|
  {
    if targets != [] {
      var n := |targets| - 1;
      NewRowsKeepCap(invs, first, caller, parent, targets[..n], cap);
      CapGrows(NewRows(invs, first, caller, parent, targets[..n]), first + n, cap,
               Invocation(parent, caller, targets[n], None, Waiting, None));
    }
  }

  lemma CreateRowsKeepsForest(s: State, caller: AgentId, parent: RunId, targets: seq<Option<AgentId>>, limits: Limits)
    requires ForestOk(s, limits)
    requires |InvocationsOf(s.invs, parent)| + |targets| <= limits.maxPerRun
    ensures ForestOk(CreateRows(s, caller, parent, targets), limits)
  {
    NewRowsShape(s.invs, s.nextInv, caller, parent, targets);
    NewRowsKeepCap(s.invs, s.nextInv, caller, parent, targets, limits.maxPerRun);
    LinksStay(s.runs, s.invs, s.runs, NewRows(s.invs, s.nextInv, caller, parent, targets));
  }

  /** What dispatching may rely on and what it keeps for the next task of the batch. */
  ghost predicate ReadyFor(s: State, parent: RunId, target: AgentId, limits: Limits) {
    && ForestOk(s, limits) && parent in s.runs
    && |Chain(s.runs, parent)| <= MAX_PEER_CHAIN && !OnChain(s.runs, Chain(s.runs, parent), target)
  }

  lemma LinksGrow(runs: Runs, invs: Invocations, nextRun: nat, i: InvocationId, run: Run)
    requires LinksOk(runs, invs) && i in invs && invs[i].childRun.None? && run.parent == Some(invs[i].parentRun)
    ensures LinksOk(runs[nextRun := run], invs[i := invs[i].(childRun := Some(nextRun), status := Working)])
  {
    var later, after := runs[nextRun := run], invs[i := invs[i].(childRun := Some(nextRun), status := Working)];
    forall r | r in later && later[r].parent.Some? ensures exists j :: StartedBy(after, r, later[r].parent.value, j) {
      if r == nextRun {
        assert StartedBy(after, r, invs[i].parentRun, i);
      } else {
        var j :| StartedBy(invs, r, runs[r].parent.value, j);
        assert StartedBy(after, r, runs[r].parent.value, j);
      }
    }
  }

  lemma RowWrittenOk(invs: Invocations, nextInv: nat, cap: nat, i: InvocationId, row: Invocation)
    requires CapOk(invs, nextInv, cap) && i in invs && row.parentRun == invs[i].parentRun
    ensures CapOk(invs[i := row], nextInv, cap)
  {
    assert invs[i := row].Keys == invs.Keys;
    CapStays(invs, invs[i := row], nextInv, cap);
  }

  lemma RefusalKeepsForest(s: State, i: InvocationId, limits: Limits)
    requires ForestOk(s, limits) && i in s.invs
    ensures ForestOk(s.(invs := s.invs[i := s.invs[i].(status := Broken)]), limits)
  {
    InvocationStatusOk(s.runs, s.invs, s.nextInv, limits.maxPerRun, i, Broken);
  }

  lemma AcceptanceKeepsForest(s: State, i: InvocationId, parent: RunId, target: AgentId, limits: Limits)
    requires ReadyFor(s, parent, target, limits)
    requires i in s.invs && s.invs[i].parentRun == parent && s.invs[i].childRun.None?
    ensures ForestOk(DispatchPeerRun(s, i, parent, target, true), limits)
  {
    FreshChildOk(s.runs, s.nextRun, parent, target);
    LinksGrow(s.runs, s.invs, s.nextRun, i, Run(target, Some(parent), true, Queued, None));
    RowWrittenOk(s.invs, s.nextInv, limits.maxPerRun, i, s.invs[i].(childRun := Some(s.nextRun), status := Working));
  }

  lemma DispatchKeepsForest(s: State, i: InvocationId, parent: RunId, target: AgentId, accepted: bool, limits: Limits)
    requires ReadyFor(s, parent, target, limits)
    requires i in s.invs && s.invs[i].parentRun == parent && s.invs[i].childRun.None?
    ensures ForestOk(DispatchPeerRun(s, i, parent, target, accepted), limits)
  {
    if accepted { AcceptanceKeepsForest(s, i, parent, target, limits); } else { RefusalKeepsForest(s, i, limits); }
  }

  lemma {:induction false} DispatchKeepsChains(s: State, i: InvocationId, parent: RunId, target: AgentId,
                                            accepted: bool, limits: Limits)
    requires ReadyFor(s, parent, target, limits) && i in s.invs
    ensures var runs := DispatchPeerRun(s, i, parent, target, accepted).runs;
            WellFounded(runs) && Extends(s.runs, runs) && Chain(runs, parent) == Chain(s.runs, parent)
  {
    if accepted { FreshChildOk(s.runs, s.nextRun, parent, target); }
  }

  lemma OnChainStays(runs: Runs, later: Runs, parent: RunId, agent: AgentId)
    requires WellFounded(runs) && parent in runs && ChainOk(runs, parent) && Extends(runs, later)
    ensures OnChain(later, Chain(runs, parent), agent) <==> OnChain(runs, Chain(runs, parent), agent)
  {
  }

  ghost predicate RowReady(s: State, i: InvocationId, parent: RunId) {
    i in s.invs && s.invs[i].parentRun == parent && s.invs[i].childRun.None?
  }

  lemma {:induction false} DispatchAllKeepsRows(s: State, first: InvocationId, parent: RunId,
                                                targets: seq<Option<AgentId>>, accepted: seq<bool>)
    requires |accepted| == |targets|
    ensures var s' := DispatchAll(s, first, parent, targets, accepted);
            && s'.nextInv == s.nextInv && s'.invs.Keys == s.invs.Keys
            && (forall j :: j in s.invs && !(first <= j < first + |targets|) ==> s'.invs[j] == s.invs[j])
  {
    if targets != [] {
      var n := |targets| - 1;
      DispatchAllKeepsRows(s, first, parent, targets[..n], accepted[..n]);
    }
  }

  lemma RowsAheadAreReady(s: State, first: InvocationId, parent: RunId, targets: seq<Option<AgentId>>,
                          accepted: seq<bool>, i: InvocationId)
    requires |accepted| == |targets| && first + |targets| <= i && RowReady(s, i, parent)
    ensures RowReady(DispatchAll(s, first, parent, targets, accepted), i, parent)
  {
    DispatchAllKeepsRows(s, first, parent, targets, accepted);
  }

  /** Where a batch has got to: the forest is sound and the parent's chain is the one the guards saw. */
  ghost predicate UnderWay(s: State, now: State, parent: RunId, limits: Limits)
    requires WellFounded(s.runs) && parent in s.runs
  {
    && ForestOk(now, limits) && Extends(s.runs, now.runs)
    && Chain(now.runs, parent) == Chain(s.runs, parent)
  }

  lemma DispatchOne(s: State, now: State, i: InvocationId, parent: RunId, target: AgentId, accepted: bool,
                    limits: Limits)
    requires ReadyFor(s, parent, target, limits) && UnderWay(s, now, parent, limits) && RowReady(now, i, parent)
    ensures UnderWay(s, DispatchPeerRun(now, i, parent, target, accepted), parent, limits)
  {
    assert ChainOk(s.runs, parent);
    OnChainStays(s.runs, now.runs, parent, target);
    assert ReadyFor(now, parent, target, limits);
    DispatchKeepsForest(now, i, parent, target, accepted, limits);
    DispatchKeepsChains(now, i, parent, target, accepted, limits);
  }

  lemma {:induction false} DispatchAllKeepsForest(s: State, first: InvocationId, parent: RunId,
                                                  targets: seq<Option<AgentId>>, accepted: seq<bool>, limits: Limits)
    requires ForestOk(s, limits) && |accepted| == |targets| && parent in s.runs
    requires forall i :: first <= i < first + |targets| ==> RowReady(s, i, parent)
    requires forall target :: Some(target) in targets ==> ReadyFor(s, parent, target, limits)
    ensures UnderWay(s, DispatchAll(s, first, parent, targets, accepted), parent, limits)
  {
    if targets != [] {
      var n := |targets| - 1;
      var before := DispatchAll(s, first, parent, targets[..n], accepted[..n]);
      DispatchAllKeepsForest(s, first, parent, targets[..n], accepted[..n], limits);
      if targets[n].Some? {
        RowsAheadAreReady(s, first, parent, targets[..n], accepted[..n], first + n);
        DispatchOne(s, before, first + n, parent, targets[n].value, accepted[n], limits);
      }
    }
  }

  /** What the guards saw for a task still holds once the rows are written. */
  lemma RowsAreReady(s: State, caller: AgentId, parent: RunId, targets: seq<Option<AgentId>>, limits: Limits)
    requires ForestOk(s, limits) && parent in s.runs
    ensures var rows := CreateRows(s, caller, parent, targets);
            forall i :: s.nextInv <= i < s.nextInv + |targets| ==> RowReady(rows, i, parent)
  {
    NewRowsShape(s.invs, s.nextInv, caller, parent, targets);
  }

  lemma AcceptedTargetsAreReady(s: State, caller: AgentId, parent: RunId, depth: int, tasks: seq<Task>,
                                targets: seq<Option<AgentId>>, limits: Limits, k: nat)
    requires ForestOk(s, limits) && Acceptable(s, caller, parent, depth, tasks, targets, limits)
    requires k < |targets| && targets[k].Some?
    ensures |Chain(s.runs, parent)| <= MAX_PEER_CHAIN && !OnChain(s.runs, Chain(s.runs, parent), targets[k].value)
  {
    WalkSeesWholeChain(s, limits, parent);
    assert TargetOk(s, caller, parent, tasks[k], targets[k]);
  }

  lemma HandOutKeepsForest(s: State, caller: AgentId, parent: RunId, depth: int, tasks: seq<Task>,
                           targets: seq<Option<AgentId>>, accepted: seq<bool>, limits: Limits)
    requires ForestOk(s, limits) && Acceptable(s, caller, parent, depth, tasks, targets, limits)
    requires |accepted| == |targets|
    ensures ForestOk(HandOutStep(s, caller, parent, targets, accepted), limits)
  {
    var rows := CreateRows(s, caller, parent, targets);
    CreateRowsKeepsForest(s, caller, parent, targets, limits);
    RowsAreReady(s, caller, parent, targets, limits);
    forall target | Some(target) in targets ensures ReadyFor(rows, parent, target, limits) {
      var k :| 0 <= k < |targets| && targets[k] == Some(target);
      AcceptedTargetsAreReady(s, caller, parent, depth, tasks, targets, limits, k);
    }
    DispatchAllKeepsForest(rows, s.nextInv, parent, targets, accepted, limits);
  }

  // ---------------------------------------------------------------- deletion cuts chains

  /** What a deletion leaves: the other runs, without a parent that is gone, and the other runs' invocations,
      without a child that is gone. */
  lemma DeletionInFields(s: State, gone: set<RunId>, limits: Limits)
    ensures var now := Step(s, DeleteRuns(gone), limits);
            && now.runs.Keys == s.runs.Keys - gone
            && (forall r :: r in now.runs ==>
                  var was := s.runs[r];
                  var parent := if was.parent.Some? && was.parent.value in gone then None else was.parent;
                  now.runs[r] == Run(was.agent, parent, was.subagent, was.status, was.error))
            && (forall i :: i in now.invs <==> i in s.invs && s.invs[i].parentRun !in gone)
            && (forall i :: i in now.invs ==>
                  var was := s.invs[i];
                  var child := if was.childRun.Some? && was.childRun.value in gone then None else was.childRun;
                  now.invs[i] == Invocation(was.parentRun, was.parentAgent, was.childAgent, child, was.status,
                                            was.error))
            && now.agents == s.agents && now.nextRun == s.nextRun && now.nextInv == s.nextInv
  {
  }

  lemma {:induction false} ChainIsCut(runs: Runs, gone: set<RunId>, r: RunId)
    requires WellFounded(runs) && WellFounded(WithoutRuns(runs, gone)) && r in WithoutRuns(runs, gone)
    ensures Chain(WithoutRuns(runs, gone), r) <= Chain(runs, r)
    decreases r
  {
    if WithoutRuns(runs, gone)[r].parent.Some? { ChainIsCut(runs, gone, runs[r].parent.value); }
  }

  lemma {:induction false} ChainsAreRuns(runs: Runs, r: RunId)
    requires WellFounded(runs) && r in runs
    ensures forall k :: 0 <= k < |Chain(runs, r)| ==> Chain(runs, r)[k] in runs
    decreases r
  {
    if runs[r].parent.Some? { ChainsAreRuns(runs, runs[r].parent.value); }
  }

  lemma CutChainsAreOk(runs: Runs, gone: set<RunId>, r: RunId)
    requires WellFounded(runs) && WellFounded(WithoutRuns(runs, gone)) && r in WithoutRuns(runs, gone)
    requires ChainOk(runs, r)
    ensures ChainOk(WithoutRuns(runs, gone), r)
  {
    var later := WithoutRuns(runs, gone);
    ChainIsCut(runs, gone, r);
    ChainsAreRuns(later, r);
    var cut, chain := Chain(later, r), Chain(runs, r);
    assert forall k :: 0 <= k < |cut| ==> cut[k] == chain[k] && later[cut[k]].agent == runs[chain[k]].agent;
  }

  lemma DeletionKeepsRuns(runs: Runs, nextRun: nat, gone: set<RunId>)
    requires RunsOk(runs, nextRun)
    ensures RunsOk(WithoutRuns(runs, gone), nextRun)
  {
    assert WellFounded(WithoutRuns(runs, gone));
    forall r | r in WithoutRuns(runs, gone) ensures ChainOk(WithoutRuns(runs, gone), r) {
      CutChainsAreOk(runs, gone, r);
    }
  }

  lemma DeletionKeepsLinks(runs: Runs, invs: Invocations, gone: set<RunId>)
    requires LinksOk(runs, invs)
    ensures LinksOk(WithoutRuns(runs, gone), WithoutOwners(invs, gone))
  {
    var later, after := WithoutRuns(runs, gone), WithoutOwners(invs, gone);
    forall r | r in later && later[r].parent.Some? ensures exists i :: StartedBy(after, r, later[r].parent.value, i) {
      var i :| StartedBy(invs, r, runs[r].parent.value, i);
      assert StartedBy(after, r, later[r].parent.value, i);
    }
  }

  lemma {:induction false} SubsetSize<T>(a: set<T>, b: set<T>)
    requires a <= b
    ensures |a| <= |b|
    decreases a
  {
    if a != {} {
      var x :| x in a;
      SubsetSize(a - {x}, b - {x});
    }
  }

  lemma DeletionKeepsCap(invs: Invocations, nextInv: nat, cap: nat, gone: set<RunId>)
    requires CapOk(invs, nextInv, cap)
    ensures CapOk(WithoutOwners(invs, gone), nextInv, cap)
  {
    var after := WithoutOwners(invs, gone);
    forall p ensures |InvocationsOf(after, p)| <= cap {
      SubsetSize(InvocationsOf(after, p), InvocationsOf(invs, p));
    }
  }

  /** What is left after a deletion is as sound as before: chains are only cut. */
  lemma DeletionKeepsForest(s: State, gone: set<RunId>, limits: Limits)
    requires ForestOk(s, limits)
    ensures ForestOk(Step(s, DeleteRuns(gone), limits), limits)
  {
    DeletionKeepsRuns(s.runs, s.nextRun, gone);
    DeletionKeepsLinks(s.runs, s.invs, gone);
    DeletionKeepsCap(s.invs, s.nextInv, limits.maxPerRun, gone);
  }

  lemma RunStatusOk(runs: Runs, invs: Invocations, nextRun: nat, r: RunId, status: RunStatus)
    requires RunsOk(runs, nextRun) && LinksOk(runs, invs) && r in runs
    ensures var later := runs[r := runs[r].(status := status)]; RunsOk(later, nextRun) && LinksOk(later, invs)
  {
    var later := runs[r := runs[r].(status := status)];
    assert later.Keys == runs.Keys;
    assert Extends(runs, later);
    SameRunsOk(runs, later, nextRun);
    LinksStay(runs, invs, later, invs);
  }

  lemma {:induction false} RunStatusKeepsForest(s: State, r: RunId, status: RunStatus, limits: Limits)
    requires ForestOk(s, limits)
    ensures ForestOk(Step(s, SetRunStatus(r, status), limits), limits)
  {
    if r in s.runs { RunStatusOk(s.runs, s.invs, s.nextRun, r, status); }
  }

  lemma InvocationStatusOk(runs: Runs, invs: Invocations, nextInv: nat, cap: nat, i: InvocationId,
                           status: InvocationStatus)
    requires LinksOk(runs, invs) && CapOk(invs, nextInv, cap) && i in invs
    ensures var after := invs[i := invs[i].(status := status)]; LinksOk(runs, after) && CapOk(after, nextInv, cap)
  {
    var after := invs[i := invs[i].(status := status)];
    assert after.Keys == invs.Keys;
    LinksStay(runs, invs, runs, after);
    CapStays(invs, after, nextInv, cap);
  }

  lemma InvocationStatusKeepsForest(s: State, i: InvocationId, status: InvocationStatus, limits: Limits)
    requires ForestOk(s, limits)
    ensures ForestOk(Step(s, SetInvocationStatus(i, status), limits), limits)
  {
    if i in s.invs { InvocationStatusOk(s.runs, s.invs, s.nextInv, limits.maxPerRun, i, status); }
  }

  lemma StartRunKeepsForest(s: State, agent: AgentId, limits: Limits)
    requires ForestOk(s, limits)
    ensures ForestOk(Step(s, StartRun(agent), limits), limits)
  {
    FreshRootOk(s.runs, s.nextRun, agent);
    LinksStay(s.runs, s.invs, Step(s, StartRun(agent), limits).runs, s.invs);
  }

  lemma StepKeepsForest(s: State, a: Action, limits: Limits)
    requires ForestOk(s, limits)
    ensures ForestOk(Step(s, a, limits), limits)
  {
    match a
    case StartRun(agent) => StartRunKeepsForest(s, agent, limits);
    case HandOut(caller, parent, depth, tasks, targets, accepted) =>
      if Acceptable(s, caller, parent, depth, tasks, targets, limits) && |accepted| == |targets| {
        HandOutKeepsForest(s, caller, parent, depth, tasks, targets, accepted, limits);
      }
    case ChangeAgents(_) =>
    case SetRunStatus(r, status) => RunStatusKeepsForest(s, r, status, limits);
    case SetInvocationStatus(i, status) => InvocationStatusKeepsForest(s, i, status, limits);
    case DeleteRuns(gone) => DeletionKeepsForest(s, gone, limits);
  }

  /** Whatever happens, every chain of hand-overs stays acyclic, names each agent once and is at most
      three hops long, and no parent has more invocations than the cap. */
  lemma {:induction false} EveryForestIsOk(actions: seq<Action>, limits: Limits)
    ensures ForestOk(RunAll(NOTHING, actions, limits), limits)
  {
    if actions != [] {
      EveryForestIsOk(actions[..|actions| - 1], limits);
      StepKeepsForest(RunAll(NOTHING, actions[..|actions| - 1], limits), actions[|actions| - 1], limits);
    } else {
      forall p ensures InvocationsOf(NOTHING.invs, p) == {} {}
    }
  }
}
