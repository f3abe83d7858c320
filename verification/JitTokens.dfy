/** One-time approval tokens: minting them on approval rows and spending them when an action starts. */
module JitTokens {
  import opened Wrappers
  import opened JitScope

  type AgentId = nat

  datatype Agent = Agent(id: AgentId, jitScopes: seq<string>)

  /** An approval row joined with the action log row it decides. */
  datatype Approval = Approval(agent: AgentId, actionType: string, approved: bool, token: Option<string>)

  datatype Mint = Mint(agent: AgentId, actionType: string, token: string)

  /** A request to start an action; whether its timestamp is recent and its signature verifies is decided
      outside. */
  datatype Call = Call(did: string, actionType: string, jitToken: Option<string>, recent: bool, signed: bool)

  /** An action log row in phase `start`, with the scopes and the token it was admitted under. */
  datatype Start = Start(agent: AgentId, actionType: string, jitScopes: seq<string>, token: Option<string>)

  datatype StartError = StaleTimestamp | AgentNotFound | InvalidSignature | JitTokenRequired | JitTokenInvalid

  /** `mints` is the history of minted tokens; no code reads it. */
  datatype State = State(agents: map<string, Agent>, approvals: seq<Approval>, mints: seq<Mint>, starts: seq<Start>)

  const EMPTY := State(map[], [], [], [])

  /** An empty string counts as no token. */
  function Presented(call: Call): Option<string> {
    if call.jitToken == Some("") then None else call.jitToken
  }

  predicate Spendable(row: Approval, agent: AgentId, actionType: string, token: string) {
    row.token == Some(token) && row.approved && row.agent == agent && row.actionType == actionType
  }

  function FindSpendable(rows: seq<Approval>, agent: AgentId, actionType: string, token: string): (r: Option<nat>)
    ensures r.Some? ==> r.value < |rows| && Spendable(rows[r.value], agent, actionType, token)
    ensures r.None? ==> forall k :: 0 <= k < |rows| ==> !Spendable(rows[k], agent, actionType, token)
  {
    if rows == [] then None
    else
      var r := FindSpendable(rows[..|rows| - 1], agent, actionType, token);
      if r.Some? then r
      else if Spendable(rows[|rows| - 1], agent, actionType, token) then Some(|rows| - 1) else None
  }

  /** The rows after the first spendable one has lost its token; None if there is none. */
  function Consumed(rows: seq<Approval>, agent: AgentId, actionType: string, token: string): Option<seq<Approval>> {
    var r := FindSpendable(rows, agent, actionType, token);
    if r.None? then None else Some(rows[r.value := rows[r.value].(token := None)])
  }

  /** The rows a call leaves behind and the action it starts. */
  function Admit(s: State, call: Call): Result<(seq<Approval>, Start), StartError> {
    if !call.recent then Err(StaleTimestamp)
    else if call.did !in s.agents then Err(AgentNotFound)
    else if !call.signed then Err(InvalidSignature)
    else
      var agent, token := s.agents[call.did], Presented(call);
      var needsJit := ScopeRequiresJit(agent.jitScopes, call.actionType);
      var start := Start(agent.id, call.actionType, agent.jitScopes, token);
      if needsJit && token.None? then Err(JitTokenRequired)
      else if !needsJit && token.Some? then Err(JitTokenInvalid)
      else if token.None? then Ok((s.approvals, start))
      else
        var rows := Consumed(s.approvals, agent.id, call.actionType, token.value);
        if rows.None? then Err(JitTokenInvalid) else Ok((rows.value, start))
  }

  /** `stored` is false when writing the action row fails after the token was consumed. */
  datatype Action =
    | SetAgent(did: string, agent: Agent)
    | Request(agentId: AgentId, actionType: string)
    | Approve(row: nat, token: string)
    | Deny(row: nat)
    | Begin(call: Call, stored: bool)

  /** Minted tokens are fresh random strings. */
  predicate IsFresh(s: State, token: string) {
    token != "" && forall i :: 0 <= i < |s.mints| ==> s.mints[i].token != token
  }

  function Step(s: State, x: Action): State {
    match x
    case SetAgent(did, agent) => s.(agents := s.agents[did := agent])
    case Request(agentId, actionType) => s.(approvals := s.approvals + [Approval(agentId, actionType, false, None)])
    case Approve(row, token) =>
      if row >= |s.approvals| || !IsFresh(s, token) then s
      else
        var a := s.approvals[row];
        s.(approvals := s.approvals[row := a.(approved := true, token := Some(token))],
           mints := s.mints + [Mint(a.agent, a.actionType, token)])
    case Deny(row) =>
      if row >= |s.approvals| then s else s.(approvals := s.approvals[row := s.approvals[row].(approved := false)])
    case Begin(call, stored) =>
      var r := Admit(s, call);
      if r.Err? then s
      else s.(approvals := r.value.0, starts := if stored then s.starts + [r.value.1] else s.starts)
  }

  function Run(s: State, xs: seq<Action>): State
    decreases |xs|
  {
    if xs == [] then s else Step(Run(s, xs[..|xs| - 1]), xs[|xs| - 1])
  }

  // ---------------------------------------------------------------- invariants

  ghost predicate IsMint(s: State, agent: AgentId, actionType: string, token: string) {
    Mint(agent, actionType, token) in s.mints
  }

  ghost predicate MintsAreDistinct(s: State) {
    forall i, j :: 0 <= i < j < |s.mints| ==> s.mints[i].token != s.mints[j].token
  }

  ghost predicate RowsCarryMints(s: State) {
    && (forall k :: 0 <= k < |s.approvals| && s.approvals[k].token.Some? ==>
          IsMint(s, s.approvals[k].agent, s.approvals[k].actionType, s.approvals[k].token.value))
    && (forall k, l :: 0 <= k < l < |s.approvals| && s.approvals[k].token.Some? ==>
          s.approvals[k].token != s.approvals[l].token)
  }

  /** Every start was admitted as its scopes demand, and its token is on no row any more. */
  ghost predicate StartsAreApproved(s: State) {
    && (forall i :: 0 <= i < |s.starts| ==>
          (ScopeRequiresJit(s.starts[i].jitScopes, s.starts[i].actionType) <==> s.starts[i].token.Some?))
    && (forall i :: 0 <= i < |s.starts| && s.starts[i].token.Some? ==>
          IsMint(s, s.starts[i].agent, s.starts[i].actionType, s.starts[i].token.value))
    && (forall i, j :: 0 <= i < j < |s.starts| && s.starts[i].token.Some? ==> s.starts[i].token != s.starts[j].token)
    && (forall i, k :: 0 <= i < |s.starts| && 0 <= k < |s.approvals| && s.starts[i].token.Some? ==>
          s.starts[i].token != s.approvals[k].token)
  }

  ghost predicate Sound(s: State) {
    MintsAreDistinct(s) && RowsCarryMints(s) && StartsAreApproved(s)
  }

  lemma ApproveKeeps(s: State, row: nat, token: string)
    requires Sound(s)
    ensures Sound(Step(s, Approve(row, token)))
  {
  }

  lemma BeginKeeps(s: State, call: Call, stored: bool)
    requires Sound(s)
    ensures Sound(Step(s, Begin(call, stored)))
  {
    var r := Admit(s, call);
    if r.Ok? {
      var t := Step(s, Begin(call, stored));
      var start := r.value.1;
      if start.token.Some? {
        var k := FindSpendable(s.approvals, start.agent, start.actionType, start.token.value).value;
        assert t.approvals == s.approvals[k := s.approvals[k].(token := None)];
        assert s.approvals[k].token == start.token;
      }
      assert forall a, ty, tok :: IsMint(s, a, ty, tok) ==> IsMint(t, a, ty, tok);
    }
  }

  lemma {:induction false} StepKeepsSound(s: State, x: Action)
    requires Sound(s)
    ensures Sound(Step(s, x))
  {
    match x
    case Approve(row, token) => ApproveKeeps(s, row, token);
    case Begin(call, stored) => BeginKeeps(s, call, stored);
    case _ => assert forall a, ty, tok :: IsMint(s, a, ty, tok) ==> IsMint(Step(s, x), a, ty, tok);
  }

  lemma {:induction false} EveryRunIsSound(xs: seq<Action>)
    ensures Sound(Run(EMPTY, xs))
    decreases |xs|
  {
    if xs != [] {
      EveryRunIsSound(xs[..|xs| - 1]);
      StepKeepsSound(Run(EMPTY, xs[..|xs| - 1]), xs[|xs| - 1]);
    }
  }

  // ---------------------------------------------------------------- main results

  predicate NeededApproval(start: Start) {
    ScopeRequiresJit(start.jitScopes, start.actionType)
  }

  /** Starts that needed approval map one to one into the minted tokens, agent and action type alike;
      the other starts used none. */
  lemma ApprovalsAreSpentOnce(xs: seq<Action>) returns (mintOf: seq<nat>)
    ensures var s := Run(EMPTY, xs);
            && |mintOf| == |s.starts|
            && (forall i :: 0 <= i < |s.starts| && NeededApproval(s.starts[i]) ==>
                  && mintOf[i] < |s.mints|
                  && Some(s.mints[mintOf[i]].token) == s.starts[i].token
                  && s.mints[mintOf[i]].agent == s.starts[i].agent
                  && s.mints[mintOf[i]].actionType == s.starts[i].actionType)
            && (forall i, j :: 0 <= i < j < |s.starts| && NeededApproval(s.starts[i]) && NeededApproval(s.starts[j]) ==>
                  mintOf[i] != mintOf[j])
            && (forall i :: 0 <= i < |s.starts| && !NeededApproval(s.starts[i]) ==> s.starts[i].token.None?)
  {
    EveryRunIsSound(xs);
    var s := Run(EMPTY, xs);
    mintOf := [];
    while |mintOf| < |s.starts|
      invariant |mintOf| <= |s.starts|
      invariant forall i :: 0 <= i < |mintOf| && s.starts[i].token.Some? ==>
                  mintOf[i] < |s.mints| &&
                    s.mints[mintOf[i]] == Mint(s.starts[i].agent, s.starts[i].actionType, s.starts[i].token.value)
    {
      var start := s.starts[|mintOf|];
      if start.token.Some? {
        assert IsMint(s, start.agent, start.actionType, start.token.value);
        var k: nat :| k < |s.mints| && s.mints[k] == Mint(start.agent, start.actionType, start.token.value);
        mintOf := mintOf + [k];
      } else {
        mintOf := mintOf + [0];
      }
    }
  }

  /** On no row, though it was minted: the token is gone for good. */
  ghost predicate IsSpent(s: State, token: string) {
    && (exists i :: 0 <= i < |s.mints| && s.mints[i].token == token)
    && (forall k :: 0 <= k < |s.approvals| ==> s.approvals[k].token != Some(token))
  }

  lemma StepKeepsSpent(s: State, x: Action, token: string)
    requires IsSpent(s, token)
    ensures IsSpent(Step(s, x), token)
  {
    var i :| 0 <= i < |s.mints| && s.mints[i].token == token;
    var t := Step(s, x);
    assert t.mints[i].token == token;
  }

  lemma {:induction false} RunKeepsSpent(s: State, xs: seq<Action>, token: string)
    requires IsSpent(s, token)
    ensures IsSpent(Run(s, xs), token)
    decreases |xs|
  {
    if xs != [] {
      RunKeepsSpent(s, xs[..|xs| - 1], token);
      StepKeepsSpent(Run(s, xs[..|xs| - 1]), xs[|xs| - 1], token);
    }
  }

  /** Once a call was admitted with a token, whether or not its row was written, no later call gets in
      with that token, whatever happens in between. */
  lemma TokensWorkOnce(before: seq<Action>, call: Call, stored: bool, after: seq<Action>, again: Call)
    requires Admit(Run(EMPTY, before), call).Ok? && Presented(call).Some?
    requires Presented(again) == Presented(call)
    ensures Admit(Run(Step(Run(EMPTY, before), Begin(call, stored)), after), again).Err?
  {
    EveryRunIsSound(before);
    var s, token := Run(EMPTY, before), Presented(call).value;
    var start := Admit(s, call).value.1;
    var k := FindSpendable(s.approvals, start.agent, start.actionType, token).value;
    assert IsMint(s, s.approvals[k].agent, s.approvals[k].actionType, token);
    var t := Step(s, Begin(call, stored));
    assert t.approvals == s.approvals[k := s.approvals[k].(token := None)];
    assert IsSpent(t, token) by {
      var m :| 0 <= m < |s.mints| && s.mints[m] == Mint(s.approvals[k].agent, s.approvals[k].actionType, token);
      assert t.mints[m].token == token;
    }
    RunKeepsSpent(t, after, token);
  }

  /** The token of an approved row is good for a recent, signed call of the row's agent and type, and for
      no other. */
  lemma ApprovedTokensWork(xs: seq<Action>, row: nat, call: Call)
    requires row < |Run(EMPTY, xs).approvals|
    requires Run(EMPTY, xs).approvals[row].token == Presented(call) && Presented(call).Some?
    requires call.recent && call.signed && call.did in Run(EMPTY, xs).agents
    requires NeedsApproval(Run(EMPTY, xs).agents[call.did].jitScopes, call.actionType)
    ensures var s := Run(EMPTY, xs);
            Admit(s, call).Ok? <==>
              Spendable(s.approvals[row], s.agents[call.did].id, call.actionType, Presented(call).value)
  {
    EveryRunIsSound(xs);
    var s := Run(EMPTY, xs);
    ScopesMeanWhatTheySay(s.agents[call.did].jitScopes, call.actionType);
    assert forall k :: 0 <= k < |s.approvals| && k != row ==> s.approvals[k].token != Presented(call);
  }

  // ---------------------------------------------------------------- in fields

  /** What each refusal means, and that everything else is admitted. */
  lemma AdmissionInFields(s: State, call: Call)
    ensures var r, token := Admit(s, call), if call.jitToken == Some("") then None else call.jitToken;
            && (r == Err(StaleTimestamp) <==> !call.recent)
            && (r == Err(AgentNotFound) <==> call.recent && call.did !in s.agents)
            && (r == Err(InvalidSignature) <==> call.recent && call.did in s.agents && !call.signed)
            && (call.recent && call.signed && call.did in s.agents ==>
                  var agent := s.agents[call.did];
                  var needed := NeedsApproval(agent.jitScopes, call.actionType);
                  && (r == Err(JitTokenRequired) <==> needed && token == None)
                  && (r == Err(JitTokenInvalid) <==>
                        token != None
                        && (needed ==>
                              forall k :: 0 <= k < |s.approvals| ==> !IsGoodFor(s.approvals[k], agent, call, token)))
                  && (r.Ok? <==>
                        if needed
                        then token != None
                             && exists k :: 0 <= k < |s.approvals| && IsGoodFor(s.approvals[k], agent, call, token)
                        else token == None))
            && (r.Ok? ==> call.recent && call.signed && call.did in s.agents)
  {
    if call.did in s.agents {
      var agent := s.agents[call.did];
      ScopesMeanWhatTheySay(agent.jitScopes, call.actionType);
      forall k | 0 <= k < |s.approvals| && Presented(call).Some?
        ensures IsGoodFor(s.approvals[k], agent, call, Presented(call))
                <==> Spendable(s.approvals[k], agent.id, call.actionType, Presented(call).value)
      {
      }
    }
  }

  /** An approved row of the caller's agent and the call's type that carries the token. */
  predicate IsGoodFor(row: Approval, agent: Agent, call: Call, token: Option<string>) {
    row.approved == true && row.agent == agent.id && row.actionType == call.actionType && row.token == token
  }

  /** What an admitted call leaves: its action row, and one row that carried the token without it. */
  lemma BeginInFields(s: State, call: Call, stored: bool)
    ensures var now, token := Step(s, Begin(call, stored)), if call.jitToken == Some("") then None else call.jitToken;
            && now.agents == s.agents && now.mints == s.mints
            && (Admit(s, call).Err? ==> now == s)
            && (Admit(s, call).Ok? ==>
                  var agent := s.agents[call.did];
                  && now.starts
                     == s.starts + (if stored then [Start(agent.id, call.actionType, agent.jitScopes, token)] else [])
                  && (token == None ==> now.approvals == s.approvals)
                  && (token != None ==>
                        exists k :: 0 <= k < |s.approvals| && IsGoodFor(s.approvals[k], agent, call, token)
                          && now.approvals == s.approvals[k := Approval(agent.id, call.actionType, true, None)]))
  {
    if Admit(s, call).Ok? && Presented(call).Some? {
      var agent := s.agents[call.did];
      var k := FindSpendable(s.approvals, agent.id, call.actionType, Presented(call).value).value;
      assert IsGoodFor(s.approvals[k], agent, call, Presented(call));
    }
  }

  /** A request is not approved and carries no token; agents change without touching anything else. */
  lemma RequestInFields(s: State, id: AgentId, actionType: string, did: string, agent: Agent)
    ensures Step(s, Request(id, actionType))
            == State(s.agents, s.approvals + [Approval(id, actionType, false, None)], s.mints, s.starts)
    ensures Step(s, SetAgent(did, agent)) == State(s.agents[did := agent], s.approvals, s.mints, s.starts)
  {
  }

  /** Deciding on an approval. */
  lemma DecisionInFields(s: State, row: nat, token: string)
    requires row < |s.approvals|
    ensures var was, yes, no := s.approvals[row], Step(s, Approve(row, token)), Step(s, Deny(row));
            && (IsFresh(s, token) ==>
                  && yes.approvals == s.approvals[row := Approval(was.agent, was.actionType, true, Some(token))]
                  && yes.mints == s.mints + [Mint(was.agent, was.actionType, token)]
                  && yes.starts == s.starts)
            && no.approvals == s.approvals[row := Approval(was.agent, was.actionType, false, was.token)]
            && no.mints == s.mints && no.starts == s.starts
  {
  }

  // ---------------------------------------------------------------- the service

  class TokenService {
    var agents: map<string, Agent>
    var approvals: seq<Approval>
    var starts: seq<Start>

    /** One transaction: find the approval the token belongs to and clear it. */
    method ConsumeJitToken(agent: AgentId, actionType: string, token: string) returns (ok: bool)
      modifies `approvals
      ensures ok <==> exists k :: 0 <= k < |old(approvals)| && Spendable(old(approvals)[k], agent, actionType, token)
      ensures ok ==> Consumed(old(approvals), agent, actionType, token) == Some(approvals)
      ensures !ok ==> approvals == old(approvals)
    {
      var k := 0;
      while k < |approvals|
        invariant 0 <= k <= |approvals| && approvals == old(approvals)
        invariant FindSpendable(approvals[..k], agent, actionType, token).None?
      {
        assert approvals[..k + 1][..k] == approvals[..k];
        if Spendable(approvals[k], agent, actionType, token) {
          FirstStays(approvals, k + 1, agent, actionType, token);
          approvals := approvals[k := approvals[k].(token := None)];
          return true;
        }
        k := k + 1;
      }
      assert approvals[..k] == approvals;
      return false;
    }

    method StartAction(call: Call, stored: bool, ghost mints: seq<Mint>) returns (r: Result<Start, StartError>)
      modifies `approvals, `starts
      ensures var before := State(old(agents), old(approvals), mints, old(starts));
              && State(agents, approvals, mints, starts) == Step(before, Begin(call, stored))
              && r == (if Admit(before, call).Err? then Err(Admit(before, call).error)
                   else Ok(Admit(before, call).value.1))
    {
      if !call.recent { return Err(StaleTimestamp); }
      if call.did !in agents { return Err(AgentNotFound); }
      var agent := agents[call.did];
      if !call.signed { return Err(InvalidSignature); }
      var token := Presented(call);
      var needsJit := ScopeRequiresJit(agent.jitScopes, call.actionType);
      if needsJit && token.None? { return Err(JitTokenRequired); }
      if !needsJit && token.Some? { return Err(JitTokenInvalid); }
      if token.Some? {
        var ok := ConsumeJitToken(agent.id, call.actionType, token.value);
        if !ok { return Err(JitTokenInvalid); }
      }
      var start := Start(agent.id, call.actionType, agent.jitScopes, token);
      if stored { starts := starts + [start]; }
      return Ok(start);
    }
  }

  lemma {:induction false} FirstStays(rows: seq<Approval>, n: nat, agent: AgentId, actionType: string, token: string)
    requires n <= |rows| && FindSpendable(rows[..n], agent, actionType, token).Some?
    ensures FindSpendable(rows, agent, actionType, token) == FindSpendable(rows[..n], agent, actionType, token)
    decreases |rows|
  {
    if n < |rows| {
      assert rows[..|rows| - 1][..n] == rows[..n];
      FirstStays(rows[..|rows| - 1], n, agent, actionType, token);
    } else {
      assert rows[..n] == rows;
    }
  }
}
