/** Agent runs and the invocations through which one run hands work to another. */
module AgentRuns {
  import opened Wrappers

  type RunId = nat

  type InvocationId = nat

  type AgentId = string

  datatype RunStatus = Queued | Running | Success | Failed | Canceled | Cancelled | OtherStatus(name: string)

  predicate IsAgentRunTerminal(status: RunStatus) {
    status.Success? || status.Failed? || status.Canceled? || status.Cancelled?
  }

  predicate CanTransitionAgentRunToTerminal(status: RunStatus) {
    status.Queued? || status.Running?
  }

  datatype InvocationStatus = Waiting | Working | Completed | Broken | Stopped | OtherInvocation(name: string)

  predicate CanTransitionSubAgent(status: InvocationStatus) {
    !(status.Completed? || status.Broken? || status.Stopped?)
  }

  /** `subagent` is the source's `invocationKind === 'subagent'`. */
  datatype Run = Run(agent: AgentId, parent: Option<RunId>, subagent: bool, status: RunStatus, error: Option<string>)

  datatype Invocation = Invocation(parentRun: RunId, parentAgent: AgentId, childAgent: Option<AgentId>,
                                   childRun: Option<RunId>, status: InvocationStatus, error: Option<string>)

  type Runs = map<RunId, Run>

  type Invocations = map<InvocationId, Invocation>
}
