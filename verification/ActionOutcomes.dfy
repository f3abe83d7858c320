/** How often an action is completed when calls run side by side, and how far its outcome is settled. */
module ActionOutcomes {
  import opened Wrappers
  import opened Billing
  import opened ActionLedger

  // ---------------------------------------------------------------- moments of a run

  /** The state after the first `n` steps. */
  function At(wallets: map<OrgId, Wallet>, xs: seq<Action>, n: nat): State
    requires n <= |xs|
  {
    Run(Init(wallets), xs[..n])
  }

  lemma NextMoment(wallets: map<OrgId, Wallet>, xs: seq<Action>, n: nat)
    requires n < |xs|
    ensures At(wallets, xs, n + 1) == Step(At(wallets, xs, n), xs[n])
  {
    assert xs[..n + 1][..n] == xs[..n];
  }

  lemma {:induction false} RowsStay(wallets: map<OrgId, Wallet>, xs: seq<Action>, m: nat, n: nat)
    requires m <= n <= |xs|
    ensures At(wallets, xs, m).completions <= At(wallets, xs, n).completions
    decreases n
  {
    if m < n {
      RowsStay(wallets, xs, m, n - 1);
      NextMoment(wallets, xs, n - 1);
    }
  }

  /** Step `n` is the transaction of a call that is under way. */
  predicate Commits(wallets: map<OrgId, Wallet>, xs: seq<Action>, n: nat) {
    n < |xs| && xs[n].Transact? && IsUnderWay(At(wallets, xs, n), xs[n].call)
  }

  predicate IsUnderWay(s: State, c: CallId) {
    c in s.calls && s.calls[c].Passed?
  }

  function RequestAt(wallets: map<OrgId, Wallet>, xs: seq<Action>, n: nat): Request
    requires Commits(wallets, xs, n)
  {
    At(wallets, xs, n).calls[xs[n].call].request
  }

  /** Step `n` is the lookup after which the call is under way. */
  predicate Passes(wallets: map<OrgId, Wallet>, xs: seq<Action>, n: nat, c: CallId) {
    n < |xs| && xs[n].Lookup? && xs[n].call == c && c !in At(wallets, xs, n).calls
    && IsUnderWay(At(wallets, xs, n + 1), c)
  }

  /** Every transaction has its own lookup, earlier in the run, which found no completion of the action. */
  lemma {:induction false} UnderWaySinceLookup(wallets: map<OrgId, Wallet>, xs: seq<Action>, n: nat, c: CallId)
    returns (look: nat)
    requires n <= |xs| && IsUnderWay(At(wallets, xs, n), c)
    ensures look < n && Passes(wallets, xs, look, c)
    ensures xs[look].request == At(wallets, xs, n).calls[c].request
    ensures Finds(At(wallets, xs, look).completions, xs[look].request.actionId, None)
    decreases n
  {
    NextMoment(wallets, xs, n - 1);
    if IsUnderWay(At(wallets, xs, n - 1), c) {
      look := UnderWaySinceLookup(wallets, xs, n - 1, c);
    } else {
      look := n - 1;
    }
  }

  lemma CommitAppends(wallets: map<OrgId, Wallet>, xs: seq<Action>, n: nat)
    requires n < |xs|
    ensures var before, after := At(wallets, xs, n).completions, At(wallets, xs, n + 1).completions;
            if Commits(wallets, xs, n)
            then after == before + [Completion(RequestAt(wallets, xs, n).actionId,
                 AnObject(Some(RequestAt(wallets, xs, n).success)))]
            else after == before
  {
    NextMoment(wallets, xs, n);
  }

  /** Every completion row was appended by some transaction. */
  lemma {:induction false} RowHasItsCommit(wallets: map<OrgId, Wallet>, xs: seq<Action>, n: nat, row: nat)
    returns (k: nat)
    requires n <= |xs| && row < |At(wallets, xs, n).completions|
    ensures k < n && Commits(wallets, xs, k) && |At(wallets, xs, k).completions| == row
    ensures At(wallets, xs, n).completions[row]
            == Completion(RequestAt(wallets, xs, k).actionId, AnObject(Some(RequestAt(wallets, xs, k).success)))
    decreases n
  {
    CommitAppends(wallets, xs, n - 1);
    if row < |At(wallets, xs, n - 1).completions| {
      k := RowHasItsCommit(wallets, xs, n - 1, row);
    } else {
      k := n - 1;
    }
  }

  // ---------------------------------------------------------------- overtaking

  ghost predicate CompletedOnce(completions: seq<Completion>) {
    forall i, j :: 0 <= i < j < |completions| ==> completions[i].startActionId != completions[j].startActionId
  }

  /** Between the lookup of the call that commits at `n` and that commit, another call commits a completion
      of the same action. */
  ghost predicate IsOvertaken(wallets: map<OrgId, Wallet>, xs: seq<Action>, look: nat, k: nat, n: nat) {
    && look < k < n && Commits(wallets, xs, n) && Passes(wallets, xs, look, xs[n].call)
    && Commits(wallets, xs, k)
    && RequestAt(wallets, xs, k).actionId == RequestAt(wallets, xs, n).actionId
  }

  ghost predicate NobodyOvertakes(wallets: map<OrgId, Wallet>, xs: seq<Action>) {
    forall look: nat, k: nat, n: nat :: !IsOvertaken(wallets, xs, look, k, n)
  }

  /** A completion that is there when a transaction commits was committed after the lookup that let the
      transaction pass. */
  lemma CompletionsAtCommitAreNewer(wallets: map<OrgId, Wallet>, xs: seq<Action>, n: nat, row: nat)
    returns (look: nat, k: nat)
    requires Commits(wallets, xs, n) && row < |At(wallets, xs, n).completions|
    requires At(wallets, xs, n).completions[row].startActionId == RequestAt(wallets, xs, n).actionId
    ensures IsOvertaken(wallets, xs, look, k, n) && |At(wallets, xs, k).completions| == row
  {
    look := UnderWaySinceLookup(wallets, xs, n, xs[n].call);
    k := RowHasItsCommit(wallets, xs, n, row);
    if k <= look {
      RowsStay(wallets, xs, k + 1, look + 1);
      CommitAppends(wallets, xs, look);
      CommitAppends(wallets, xs, k);
      RowsStay(wallets, xs, look, n);
    }
  }

  lemma OvertakingCompletesTwice(wallets: map<OrgId, Wallet>, xs: seq<Action>, look: nat, k: nat, n: nat)
    requires IsOvertaken(wallets, xs, look, k, n)
    ensures !CompletedOnce(Run(Init(wallets), xs).completions)
  {
    var p, q := |At(wallets, xs, k).completions|, |At(wallets, xs, n).completions|;
    CommitIsKept(wallets, xs, k, n);
    CommitIsKept(wallets, xs, k, |xs|);
    CommitIsKept(wallets, xs, n, |xs|);
    assert xs[..|xs|] == xs;
    var rows := At(wallets, xs, |xs|).completions;
    assert p < q && rows[p].startActionId == rows[q].startActionId;
  }

  lemma CommitIsKept(wallets: map<OrgId, Wallet>, xs: seq<Action>, k: nat, n: nat)
    requires k < n <= |xs| && Commits(wallets, xs, k)
    ensures var row, rows := |At(wallets, xs, k).completions|, At(wallets, xs, n).completions;
            row < |rows| && rows[row].startActionId == RequestAt(wallets, xs, k).actionId
  {
    CommitAppends(wallets, xs, k);
    RowsStay(wallets, xs, k + 1, n);
  }

  /** An action is completed at most once exactly when no call commits between another call's lookup and
      its commit for the same action. */
  lemma OneCompletionUnlessOvertaken(wallets: map<OrgId, Wallet>, xs: seq<Action>)
    ensures CompletedOnce(Run(Init(wallets), xs).completions) <==> NobodyOvertakes(wallets, xs)
  {
    assert xs[..|xs|] == xs;
    var rows := Run(Init(wallets), xs).completions;
    if !NobodyOvertakes(wallets, xs) {
      var look: nat, k: nat, n: nat :| IsOvertaken(wallets, xs, look, k, n);
      OvertakingCompletesTwice(wallets, xs, look, k, n);
    }
    if !CompletedOnce(rows) {
      var i, j :| 0 <= i < j < |rows| && rows[i].startActionId == rows[j].startActionId;
      var n := RowHasItsCommit(wallets, xs, |xs|, j);
      RowsStay(wallets, xs, n, |xs|);
      var look, k := CompletionsAtCommitAreNewer(wallets, xs, n, i);
    }
  }

  /** Two calls that both look before either commits leave two completions, even contradictory ones. */
  lemma TwoLookupsCompleteTwice(did: string, id: ActionId, a: bool, b: bool)
    ensures TwiceCompleted(did, id, a, b).completions
            == [Completion(id, AnObject(Some(a))), Completion(id, AnObject(Some(b)))]
  {
  }

  function TwiceCompleted(did: string, id: ActionId, a: bool, b: bool): State {
    var s := Init(map[]).(starts := map[id := Start(Some(Agent(did, None)))]);
    var first, second := Request(did, id, a, None, true, true), Request(did, id, b, None, true, true);
    Step(Step(Step(Step(s, Lookup(0, first, None)), Lookup(1, second, None)), Transact(0, 0)), Transact(1, 0))
  }

  // ---------------------------------------------------------------- what a later request is told

  /** A recent, signed request under the DID of an agent that still exists. */
  predicate IsAdmissible(s: State, request: Request) {
    && request.recent && request.signed
    && request.actionId in s.starts && s.starts[request.actionId].agent.Some?
    && s.starts[request.actionId].agent.value.did == request.did
  }

  lemma AdmissibleRequestsPassTheChecks(s: State, request: Request)
    ensures Check(s, request).Ok? <==> IsAdmissible(s, request)
  {
  }

  /** Whether the request is refused does not hang on which row the search finds. */
  ghost predicate IsDetermined(s: State, request: Request) {
    forall f, g :: Finds(s.completions, request.actionId, f) && Finds(s.completions, request.actionId, g) ==>
      LookUp(s, request, f).Answered? == LookUp(s, request, g).Answered?
      && (LookUp(s, request, f).Answered? ==>
            LookUp(s, request, f).result.Err? == LookUp(s, request, g).result.Err?)
  }

  /** All completions of the action report the same success. */
  ghost predicate OutcomesAgree(completions: seq<Completion>, id: ActionId) {
    forall i, j :: 0 <= i < |completions| && 0 <= j < |completions|
                   && completions[i].startActionId == id && completions[j].startActionId == id ==>
      completions[i].payload == completions[j].payload
  }

  lemma {:induction false} PayloadsAreOutcomes(wallets: map<OrgId, Wallet>, xs: seq<Action>, row: nat)
    requires row < |Run(Init(wallets), xs).completions|
    ensures var payload := Run(Init(wallets), xs).completions[row].payload; payload.AnObject? && payload.success.Some?
  {
    assert xs[..|xs|] == xs;
    var k := RowHasItsCommit(wallets, xs, |xs|, row);
  }

  /** The answer to an admissible request is determined exactly when the stored completions of its action
      agree. */
  lemma AnswersAreDeterminedByAgreement(wallets: map<OrgId, Wallet>, xs: seq<Action>, request: Request)
    requires IsAdmissible(Run(Init(wallets), xs), request)
    ensures IsDetermined(Run(Init(wallets), xs), request)
            <==> OutcomesAgree(Run(Init(wallets), xs).completions, request.actionId)
  {
    var s := Run(Init(wallets), xs);
    var rows, id := s.completions, request.actionId;
    forall i: nat | i < |rows| ensures rows[i].payload.AnObject? && rows[i].payload.success.Some? {
      PayloadsAreOutcomes(wallets, xs, i);
    }
    if IsDetermined(s, request) {
      forall i: nat, j: nat | i < |rows| && j < |rows| && rows[i].startActionId == id && rows[j].startActionId == id
        ensures rows[i].payload == rows[j].payload
      {
        var f, g := LookUp(s, request, Some(i)), LookUp(s, request, Some(j));
        assert f.result.Err? == g.result.Err?;
        var a, b := rows[i].payload.success.value, rows[j].payload.success.value;
        assert f.result.Err? <==> a != request.success;
        assert g.result.Err? <==> b != request.success;
        assert rows[i].payload == AnObject(Some(a)) && rows[j].payload == AnObject(Some(b));
      }
    }
  }

  /** After two contradictory completions the very same request may be accepted or refused. */
  lemma ContradictoryCompletionsAnswerEitherWay(did: string, id: ActionId, a: bool)
    ensures var s, retry := TwiceCompleted(did, id, a, !a), Request(did, id, a, None, true, true);
            && CanLookUp(s, retry, Some(0)) && LookUp(s, retry, Some(0)) == Answered(Ok(Answer(0, a, None, true)))
            && CanLookUp(s, retry, Some(1)) && LookUp(s, retry, Some(1)) == Answered(Err(ActionAlreadyCompleted))
  {
    TwoLookupsCompleteTwice(did, id, a, !a);
  }

  /** In a run without overtaking a completed action is settled: whatever the search finds is that one
      completion, from then on every admissible request that agrees with it gets it as its answer, and every
      other is refused. */
  lemma OutcomesAreSettled(wallets: map<OrgId, Wallet>, xs: seq<Action>, n: nat, row: nat, request: Request,
                           found: Option<nat>)
    requires n <= |xs| && NobodyOvertakes(wallets, xs)
    requires row < |At(wallets, xs, n).completions|
    requires At(wallets, xs, n).completions[row].startActionId == request.actionId
    requires IsAdmissible(Run(Init(wallets), xs), request)
    requires Finds(Run(Init(wallets), xs).completions, request.actionId, found)
    ensures var s := Run(Init(wallets), xs);
            && found == Some(row) && row < |s.completions|
            && s.completions[row] == At(wallets, xs, n).completions[row]
            && LookUp(s, request, found)
               == Answered(if s.completions[row].payload == AnObject(Some(request.success))
                           then Ok(Answer(row, request.success, None, true)) else Err(ActionAlreadyCompleted))
  {
    assert xs[..|xs|] == xs;
    OneCompletionUnlessOvertaken(wallets, xs);
    RowsStay(wallets, xs, n, |xs|);
    OneRowIsFound(Run(Init(wallets), xs).completions, row, found);
    PayloadsAreOutcomes(wallets, xs, row);
  }

  lemma OneRowIsFound(completions: seq<Completion>, row: nat, found: Option<nat>)
    requires CompletedOnce(completions) && row < |completions|
    requires Finds(completions, completions[row].startActionId, found)
    ensures found == Some(row)
  {
  }

  // ---------------------------------------------------------------- calls one at a time

  predicate IsSequential(ops: seq<Whole>) {
    forall i :: 0 <= i < |ops| && ops[i].Other? ==> ops[i].x.SetStart? || ops[i].x.Credit?
  }

  ghost predicate Settled(s: State) {
    CompletedOnce(s.completions) && forall c :: c in s.calls ==> s.calls[c].Answered?
  }

  lemma AloneKeepsSettled(s: State, op: Whole)
    requires Settled(s) && (op.Other? ==> op.x.SetStart? || op.x.Credit?)
    ensures Settled(Alone(s, op)) && s.completions <= Alone(s, op).completions
  {
  }

  /** Calls that run one at a time complete an action at most once. */
  lemma {:induction false} SequentialCallsCompleteOnce(wallets: map<OrgId, Wallet>, ops: seq<Whole>)
    requires IsSequential(ops)
    ensures Settled(RunAlone(Init(wallets), ops))
    decreases |ops|
  {
    if ops != [] {
      SequentialCallsCompleteOnce(wallets, ops[..|ops| - 1]);
      AloneKeepsSettled(RunAlone(Init(wallets), ops[..|ops| - 1]), ops[|ops| - 1]);
    }
  }

  lemma {:induction false} SequentialRowsStay(wallets: map<OrgId, Wallet>, ops: seq<Whole>, n: nat)
    requires IsSequential(ops) && n <= |ops|
    ensures RunAlone(Init(wallets), ops[..n]).completions <= RunAlone(Init(wallets), ops).completions
    decreases |ops|
  {
    if n < |ops| {
      var init := ops[..|ops| - 1];
      assert init[..n] == ops[..n];
      SequentialRowsStay(wallets, init, n);
      SequentialCallsCompleteOnce(wallets, init);
      AloneKeepsSettled(RunAlone(Init(wallets), init), ops[|ops| - 1]);
    } else {
      assert ops[..n] == ops;
    }
  }

  /** So among them every completed action is settled as well. */
  lemma SequentialOutcomesAreSettled(wallets: map<OrgId, Wallet>, ops: seq<Whole>, n: nat, row: nat, request: Request,
                                     found: Option<nat>)
    requires IsSequential(ops) && n <= |ops|
    requires row < |RunAlone(Init(wallets), ops[..n]).completions|
    requires RunAlone(Init(wallets), ops[..n]).completions[row].startActionId == request.actionId
    requires IsAdmissible(RunAlone(Init(wallets), ops), request)
    requires Finds(RunAlone(Init(wallets), ops).completions, request.actionId, found)
    ensures var s := RunAlone(Init(wallets), ops);
            && found == Some(row) && row < |s.completions|
            && LookUp(s, request, found)
               == Answered(if IsCompatibleCompletionReplay(s.completions[row].payload, request.success)
                           then Ok(Answer(row, request.success, None, true)) else Err(ActionAlreadyCompleted))
  {
    SequentialCallsCompleteOnce(wallets, ops);
    SequentialRowsStay(wallets, ops, n);
    OneRowIsFound(RunAlone(Init(wallets), ops).completions, row, found);
  }
}
