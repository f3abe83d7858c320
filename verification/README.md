# Agent platform: a verified model of its stateful core

This project models the parts of the platform whose correctness does not show in any single function, and proves
what they promise for every input, every run and every interleaving. `dafny verify dfyconfig.toml` checks all of it.

A database transaction, and a single guarded `updateMany`, is one atomic step. Where several requests run at once the
component is a state machine over its rows: a run is any sequence of steps by any number of participants. A service is
a class over the same rows whose methods carry out the steps, and each method's contract says which step it is. What a
step writes is stated once more field by field (the lemmas named `...InFields` and `...InTerms`), in the words of the
rows rather than of the specification. Clocks, model answers, regular expressions, similarity tests, prices, gateway
decisions and signatures are arbitrary inputs.

## Components

| modules | what they are about |
|---|---|
| `BuilderLedger`, `BuilderFacts`, `BuilderTurns`, `BuilderSteps`, `BuilderSafety`, `BuilderStore` | Builder conversations. Turns reserve message numbers by compare-and-swap, read the active facts, wait for the model, and commit facts, events, a snapshot and a cached list under a version guard, or fail. No session lock is assumed. |
| `DiscoveryNormalize`, `DiscoveryLaws`, `DiscoveryTerms` | The deterministic hygiene every discovery turn passes. |
| `AgentRuns`, `RunCancellation`, `PeerRuns`, `PeerHandOut`, `PeerTree`, `SubAgentService` | The tree of agent runs: the cancel cascade, the cycle guard, the hop limit and the cap per parent, with runs deleted at any time. |
| `RunEvents`, `RunWait` | Event numbers allocated under a lock, readers that page through them, and the timeout that leaves approval waits out. |
| `CanonicalText`, `CanonicalEscapes`, `Canonical`, `CanonicalForm`, `CanonicalShape` | The text an action's signature covers, with a parser for sections 2 to 7 of RFC 8259 as its partner. |
| `Doubles`, `Notations`, `CanonicalNumbers`, `CanonicalValues` | Which quantities that text stands for: IEEE 754 rounding, the notation of section 6.1.6.1.20 of ECMA-262, bigints beside numbers, and values equal as data. |
| `JitScope`, `JitTokens`, `ActionLedger`, `ActionOutcomes`, `ActionCharges`, `Billing` | One-time approval tokens, completion of signed actions by concurrent calls, what a later call is told, and the wallet with its two buckets. |
| `ProvisioningQueue`, `SendThrottle` | A bounded-concurrency queue and a per-connector promise chain with minimum spacing. |
| `TopChunks`, `AssessmentMerge` | Paged top-K retrieval against sorting everything; the keyed merge of findings that evaluators record in parallel. |
| `StableSort`, `Separators`, `Wrappers` | What `Array.prototype.sort` promises; keys glued from parts; options and results. |

## Where code and comment part ways

The model follows the code. Each point is stated exactly by the lemma named.

* `canonicalize` is documented to reject `undefined`. It does so in arrays and at the top, but drops members whose value
  is undefined without a word (`UndefinedMembersAreDropped`, `CanonicalizeSucceeds`).
* A bigint that equals a number prints like it exactly below 1e21 and if JavaScript needs all its digits to tell the
  number from others (`BigIntPrintsAsNumber`): always up to 2^53 (`SafeIntegersPrintExactly`), but not at 2^60, which as
  a number prints like the bigint 1152921504606847000 (`SixtiethPrintsDifferently`), and never from 1e21 on
  (`HugeBigIntPrintsDifferently`). Without such bigints equal texts mean equal data (`SameTextSameValue`), and each of
  them breaks that (`AmbiguityShows`).
* Two `complete` calls that both look before either commits leave two completions, even contradictory ones
  (`TwoLookupsCompleteTwice`). An action is completed at most once exactly when no call commits between another call's
  lookup and its commit (`OneCompletionUnlessOvertaken`).
* The search for an earlier completion sets no order (actions.service.ts:413-419), so with contradictory completions the
  same retry may be accepted or refused (`ContradictoryCompletionsAnswerEitherWay`). The answer is determined exactly
  when all completions of the action agree (`AnswersAreDeterminedByAgreement`), and settled for good where nobody
  overtakes (`OutcomesAreSettled`).
* An event stored at no charge is debited when it is completed again at a price, and its stored amount stays zero
  (`RepricedKeyIsChargedLate`); otherwise the wallet always matches the stored amounts (`WalletMatchesStoredAmounts`).
  One event's debit may be two transaction rows, one per bucket.
* The cap on sub-agents per run comes out as 0 for settings strictly between 0 and 1 (`SubAgentMaxPerRun`).
* A builder turn that fell behind runs into the snapshot's unique key before it reaches the version guard
  (`StaleTurnsMeetTheSnapshotKey`); nothing is lost either way.
* A reply that echoes the assistant's last one goes out again in two endings: when the user takes up an offer, unless it
  is empty, and while not enough is known, unless the message was a "no". The other two endings answer with a fixed text
  (`EchoesGoOut`).
* A declined question's note is kept exactly when it is an assumption already or fewer than twenty come before it
  (`DeclinedQuestionsAreNoted`); otherwise it is lost (`NotesCanBeLost`).
* Blocking questions may stay listed although planning is allowed (`BlockersDespiteReadiness`); a redesign may plan on
  the very first turn (`OnlyRedesignAddsPlans`).
* Waiting that asks for pending approvals only when needed can give up earlier than waiting that always asks
  (`LazyCanGiveUpEarlier`), never later (`LazyNeverShowsLess`): exactly when the limit is reached only by counting work
  done before a pending approval it did not look at (`LazyGivesUpEarlierExactlyWhen`). The polling loop always asks.
* A job enqueued before the handler is set is lost (`JobsAreLostOnlyBeforeTheHandler`).
* The first batch of an assessment record is stored unmerged, so recording replaces instead of accumulating exactly when
  there is a record already or no criterion is named twice (`RecordingReplacesUnlessFirst`). Such duplicates stay until
  a later batch names the key again (`DuplicatesStayUntilNamedAgain`).
* Deleting a conversation leaves sub-agent runs whose parent is gone. They still count as a hop
  (`WalkSeesWholeChain`), and the limits hold all the same (`DeletionKeepsForest`).

## Model

| member | source | states |
|---|---|---|
| BuilderLedger.ApplyOutcomeToFacts | backend/src/builder/session.service.ts:93-115 | the loop over a local map computes the ordered list that the specification of a batch gives |
| BuilderLedger.ReducerMatchesMap | backend/src/builder/session.service.ts:93-115 | the cached list is sorted, has one entry per key, and is exactly the map the batch's operations lead to |
| BuilderLedger.LedgerFollowsBatch | backend/src/builder/session.service.ts:178-202 | a batch keeps one active row per key and the supersession chains, however often it names a key, and moves the active facts exactly as it means |
| BuilderFacts.CachedFactAfterBatch | backend/src/builder/session.service.ts:93-115 | the last operation on a key decides: a set leaves exactly one cached fact of it with its category, confidence and value, `null` if none is given, and the turn's message as source; a removal leaves none |
| BuilderFacts.CachedFactStays | backend/src/builder/session.service.ts:97-111 | a fact whose key the batch does not name stays, and none of that key appears |
| BuilderFacts.CachedFactsAreOrdered | backend/src/builder/session.service.ts:112-114 | the cached list goes by category, then by key |
| BuilderFacts.ActiveRowAfterBatch | backend/src/builder/session.service.ts:178-202 | the same of the active ledger rows |
| BuilderFacts.RowsKeepTheirFacts | backend/src/builder/session.service.ts:185-190 | no row changes but in its status, and only from active on, and only if the batch names its key |
| BuilderLedger.EveryRowHasAHead | backend/src/builder/session.service.ts:178-202 | every row lies in the history of a row that nothing has superseded |
| BuilderLedger.HistoriesAreDisjoint | backend/src/builder/session.service.ts:178-202 | histories of different heads never share a row; a rejected row is such a head |
| BuilderLedger.HistoryKeepsKey | backend/src/builder/session.service.ts:178-202 | every row of a history has the key of its head and is no later |
| BuilderLedger.HistoriesRunBackInTime | backend/src/builder/session.service.ts:178-202 | a history runs strictly back in time, from each row to the older one it supersedes |
| BuilderTurns.BatchReplays | backend/src/builder/session.service.ts:203-214 | the events a batch writes replay to what the batch means |
| BuilderTurns.BatchEventsTellTheTruth | backend/src/builder/session.service.ts:203-214 | added, superseded or rejected is what the facts before the event, replayed, say |
| BuilderTurns.ActiveFactsListTheMap | backend/src/builder/session.service.ts:408-430 | the active rows a turn loads are one fact per key and exactly the active map |
| BuilderSteps.OpenInFields | backend/src/builder/session.service.ts:117-128 | opening remembers the version and the latest number of the session row |
| BuilderSteps.ClaimInFields | backend/src/builder/session.service.ts:129-150 | a reservation takes the next two numbers and writes the user's row exactly if the number read is still the latest and free |
| BuilderSteps.LoadInFields | backend/src/builder/session.service.ts:408-430 | a turn loads exactly the active facts, by category and key, and keeps its version and slot |
| BuilderSteps.PersistInFields | backend/src/builder/session.service.ts:154-254 | what a commit writes in every table, and that a failed one writes nothing |
| BuilderSteps.EventsInFields | backend/src/builder/session.service.ts:203-214 | one event per operation, with its message, both versions, and its kind by whether the key was active |
| BuilderSteps.StorePlanInFields | backend/src/builder/session.service.ts:316-353 | the new plan's number and version, and that only the older ones turn stale |
| BuilderSteps.FailureInFields | backend/src/builder/session.service.ts:355-382 | where a turn may fail or vanish, and the failed row that is written |
| BuilderSafety.StepKeepsConsistency | backend/src/builder/session.service.ts:395-589 | every step of every turn keeps all invariants of the conversation together |
| BuilderSafety.EveryRunIsConsistent | backend/src/builder/session.service.ts:395-589 | they hold after every interleaving of any number of turns, failures and vanished processes included |
| BuilderSafety.CacheLedgerAndLogAgree | backend/src/builder/session.service.ts:154-254 | cached facts, active ledger rows and the replay of the log are one map; snapshots are exactly versions 1 to the current one, each the replay up to it |
| BuilderSafety.CommitsSeeCurrentFacts | backend/src/builder/session.service.ts:243-254 | a commit happens exactly when the turn still holds the current version, and then applies its operations to the very facts it had read; otherwise nothing but the turn's own state changes |
| BuilderSafety.StaleTurnsMeetTheSnapshotKey | backend/src/builder/session.service.ts:233-254 | a turn is stale exactly when its next snapshot number is already taken, so the unique key fires before the guard |
| BuilderSafety.SlotsHaveOneOwner | backend/src/builder/session.service.ts:129-150 | each message number belongs to one reservation, is written by its turn only, and is missing only as the assistant slot of a turn that has not ended |
| BuilderSafety.SlotsAreNotShared | backend/src/builder/session.service.ts:129-150 | two turns never hold a common number |
| BuilderSafety.NoGapsWhenIdle | backend/src/builder/session.service.ts:355-382 | once every turn has ended, the numbers 1 to the latest all hold a row, failed turns included |
| BuilderStore.Conversation.ReserveTurn | backend/src/builder/session.service.ts:117-152 | the compare-and-swap is the reservation step, and succeeds exactly when the number read is still the latest and free |
| BuilderStore.Conversation.LoadFacts | backend/src/builder/session.service.ts:408-430 | loading is the load step: the active facts in database order |
| BuilderStore.Conversation.WriteBatch | backend/src/builder/session.service.ts:177-215 | the loop over operations writes exactly the specified rows and events |
| BuilderStore.Conversation.PersistDiscovery | backend/src/builder/session.service.ts:154-254 | the transaction is the persist step, all or nothing, and which error it reports |
| BuilderStore.Conversation.PersistPlan | backend/src/builder/session.service.ts:316-353 | older plans become stale and the new one gets the next number and the version it was drawn from |
| BuilderStore.Conversation.MarkTurnFailed | backend/src/builder/session.service.ts:355-382 | the assistant slot holds a failed row, whatever stood there |
| BuilderStore.Conversation.ProcessBuilderTurn | backend/src/builder/session.service.ts:395-589 | a whole turn without interference is that sequence of steps, and reports success exactly when it finished |
| BuilderStore.TurnAloneCommits | backend/src/builder/session.service.ts:395-589 | a turn nothing interferes with commits what the model produced; a failed planner keeps the facts and leaves a failed row |
| BuilderStore.TurnAloneIsConsistent | backend/src/builder/session.service.ts:395-589 | such a turn keeps every invariant of the conversation |
| BuilderStore.ConsistentMeansFresh | backend/src/builder/session.service.ts:129-132 | in a consistent conversation the next two numbers and the next snapshot are free, so a turn by itself cannot fail on them |
| BuilderStore.FailedTurnAlone | backend/src/builder/session.service.ts:572-585 | when the model fails, a turn leaves nothing but its user row and a failed row |
| DiscoveryNormalize.ComputeDeterministicReadiness | backend/src/builder/discoveryNormalize.ts:42-74 | planning is possible exactly with an objective, an output, an input or a trigger and nothing blocking; the score is the weighted count |
| DiscoveryNormalize.DedupeUnresolved | backend/src/builder/discoveryNormalize.ts:76-88 | the loop with a set of seen keys keeps the first question per key, letter case aside |
| DiscoveryLaws.FirstPerKeyKeepsFirst | backend/src/builder/discoveryNormalize.ts:76-88 | a question is kept exactly when it is the first with its key, and keys of kept questions differ |
| DiscoveryNormalize.NarrowQuestions | backend/src/builder/discoveryNormalize.ts:119-148 | the successive filters leave the first question per key that no fact and no "no" has answered, and one blocking question once enough is known |
| DiscoveryNormalize.CollectAssumptions | backend/src/builder/discoveryNormalize.ts:114-157 | the loop collects the trimmed, distinct assumptions, a note per declined question and the default trigger |
| DiscoveryNormalize.Decide | backend/src/builder/discoveryNormalize.ts:159-214 | the nested branches and the corrections after them come to one of four endings, with reply, move, questions and readiness for each |
| DiscoveryNormalize.NormalizeDiscoveryOutcome | backend/src/builder/discoveryNormalize.ts:112-225 | the whole result, field by field |
| DiscoveryLaws.OneNewQuestion | backend/src/builder/discoveryNormalize.ts:104-111 | at most one question is left, the model's first with its key, answered neither by a fact nor by this "no", and not what the assistant just asked |
| DiscoveryLaws.QuestionsAreOnlyDroppedWhenRepeated | backend/src/builder/discoveryNormalize.ts:193-207 | while not enough is known, no question is left exactly when the assistant had just asked all that remained |
| DiscoveryLaws.MovesFollowReadiness | backend/src/builder/discoveryNormalize.ts:159-214 | any move but continue means exactly that planning is possible, then nothing is open and the score is at least 0.85; the first turn never plans; operations pass unchanged |
| DiscoveryLaws.BlockersDespiteReadiness | backend/src/builder/discoveryNormalize.ts:167-178 | blocking keys are listed beside permission to plan exactly when the user answered an offer over them |
| DiscoveryLaws.BoundaryChangesNothing | backend/src/builder/discovery.service.ts:341-354 | the boundary after the hygiene is the identity |
| DiscoveryLaws.OnlyRedesignAddsPlans | backend/src/builder/discovery.service.ts:341-360 | redesign plans exactly when planning is possible and changes nothing else; it alone can plan on the first turn |
| DiscoveryLaws.EchoesGoOut | backend/src/builder/discoveryNormalize.ts:159-203 | for each of the four endings, when exactly an echoed reply goes out unchanged |
| DiscoveryLaws.DeclinedQuestionsAreNoted | backend/src/builder/discoveryNormalize.ts:124-131 | a declined question becomes an assumption exactly when its note is one already or fewer than twenty are collected before it |
| DiscoveryLaws.NotesCanBeLost | backend/src/builder/discoveryNormalize.ts:216-221 | an input on which a declined question leaves no note |
| DiscoveryLaws.TwentyAssumptionsLeaveNoRoom | backend/src/builder/discoveryNormalize.ts:216-221 | with twenty assumptions the list stays as it is: every new note is cut off |
| DiscoveryTerms.ReadinessInFacts | backend/src/builder/discoveryNormalize.ts:42-74 | the score and the permission to plan in terms of the facts' categories and hints, and which keys block |
| DiscoveryTerms.OpenInTerms | backend/src/builder/discoveryNormalize.ts:119-141 | a question is open exactly if it is the model's first with its key and unanswered by this "no", a fact, or a mention of mail |
| DiscoveryTerms.NarrowedInTerms | backend/src/builder/discoveryNormalize.ts:143-148 | once planning is possible, or 0.55 is reached by turn three, at most the first blocking question stays |
| DiscoveryTerms.EndingsInTerms | backend/src/builder/discoveryNormalize.ts:162-192 | when exactly a turn is an accepted offer, one turned down, or has enough |
| DiscoveryTerms.PlansExactlyWhen | backend/src/builder/discoveryNormalize.ts:167-214 | a turn plans exactly after the first, on an accepted offer with 0.55, or with enough known and the model proposing the design in new words; it continues exactly in no such ending |
| DiscoveryTerms.ReadinessInTerms | backend/src/builder/discoveryNormalize.ts:167-192 | the stored score and permission of every ending |
| DiscoveryTerms.RepliesInTerms | backend/src/builder/discoveryNormalize.ts:167-207 | what is said in every ending, word for word |
| DiscoveryTerms.QuestionInTerms | backend/src/builder/discoveryNormalize.ts:193-210 | the question that is left is the first that is no echo, and none once planning is possible |
| DiscoveryTerms.BaseInTerms | backend/src/builder/discoveryNormalize.ts:114-117 | the collected assumptions are the trimmed ones that are not empty, each once, twenty at most |
| DiscoveryTerms.TriggerInTerms | backend/src/builder/discoveryNormalize.ts:124-157 | the stored assumptions: what was collected, the declined notes, and the default trigger exactly if mail is mentioned and no trigger is |
| DiscoveryTerms.NotesInTerms | backend/src/builder/discoveryNormalize.ts:125-128 | the wording of a declined question's note, added unless it is there |
| DiscoveryTerms.RestInTerms | backend/src/builder/discoveryNormalize.ts:216-225 | operations pass unchanged; the summary is the model's or the first three assumptions |
| DiscoveryTerms.BoundaryInTerms | backend/src/builder/discovery.service.ts:341-360 | what the boundary and a redesign change of any outcome |
| RunCancellation.RunStore.CancelAgentRun | backend/src/agentChat/agentRunService.ts:144-185 | the recursion cancels exactly the runs reachable through outstanding invocations over live runs, and exactly their outstanding invocations, logs each once, and terminates on cyclic links |
| RunCancellation.RunStore.StopChildren | backend/src/agentChat/agentRunService.ts:168-172 | the loop over children stops what any of them reaches, in whatever order they come |
| RunCancellation.RunStore.StopOne | backend/src/agentChat/agentRunService.ts:148-167 | one run and its outstanding invocations are stopped, and the children are those it waited for |
| RunCancellation.RunStore.CompleteInvocation | backend/src/agents/subAgent.service.ts:423-459 | an invocation ends once; ending it as canceled stops everything its child reaches |
| RunCancellation.ReachIsClosed | backend/src/agentChat/agentRunService.ts:157-172 | no live run that a stopped run waited for is left running |
| RunCancellation.ReachIsLeast | backend/src/agentChat/agentRunService.ts:157-172 | nothing beyond what that forces is stopped |
| RunCancellation.ReachByChildren | backend/src/agentChat/agentRunService.ts:157-172 | stopping a run first and then each child in turn hits exactly the reachable set |
| RunCancellation.ReachAfterClosed | backend/src/agentChat/agentRunService.ts:148-156 | runs stopped for one child do not change what the next child reaches, apart from themselves |
| RunCancellation.ReachIsWhatIsPending | backend/src/agentChat/agentRunService.ts:132-160 | the reachable set in statuses: a root that is none of success, failed, canceled and cancelled, and what its pending invocations started |
| RunCancellation.NothingElseIsReached | backend/src/agentChat/agentRunService.ts:148-172 | every set with these properties contains it |
| RunCancellation.StoppedRows | backend/src/agentChat/agentRunService.ts:148-166 | a stopped run is canceled with the message, a pending invocation of it too, and no other field or row changes |
| PeerRuns.SubAgentMaxPerRun | backend/src/agents/subAgent.service.ts:84-88 | the cap is at most 32, and 0 exactly for settings strictly between 0 and 1 |
| PeerRuns.WalkSeesWholeChain | backend/src/agents/subAgent.service.ts:108-109 | the sixteen-step ancestry walk sees the whole chain, and its hops are those of the chain, plus one if the top was handed out by a run since deleted |
| PeerRuns.StepKeepsForest | backend/src/agents/subAgent.service.ts:208-307 | every step, deletions included, keeps chains acyclic with distinct agents, at most three hops, each run with a parent linked to an invocation, and the cap |
| PeerRuns.DeletionKeepsForest | backend/src/routes/createAgentChatRouter.ts:1117-1127 | deleting any runs, with their invocations and the links to them, only cuts chains: all of this still holds |
| PeerRuns.DeletionInFields | backend/prisma/schema.prisma:1111-1113 | what a deletion leaves of every run and invocation |
| PeerHandOut.ResolvingMeansAsking | backend/src/agents/subAgent.service.ts:138-159 | who may be handed work: not revoked, of the caller's organization, on a cloud or hybrid runtime, of that id or name, with the scope to ask it |
| PeerHandOut.AcceptedInFields | backend/src/agents/subAgent.service.ts:162-249 | in a sound state a batch passes exactly for its depth, a queued or running run of the caller, the cap, and targets that may be asked and are new on a short chain |
| PeerHandOut.HandOutInFields | backend/src/agents/subAgent.service.ts:251-277 | the row of every task of an accepted batch, and that every new run belongs to an agent that may be asked under a task that names it |
| PeerRuns.EveryForestIsOk | backend/src/agents/subAgent.service.ts:108-118 | so they hold in every reachable state |
| PeerTree.ChildrenAreCapped | backend/src/agents/subAgent.service.ts:226-235 | no run has more children than the cap on invocations |
| PeerTree.TreesStaySmall | backend/src/agents/subAgent.service.ts:162-188 | a root's tree numbers at most 1 + M + M^2 + M^3 runs |
| PeerTree.TreesStayBelowHardCap | backend/src/agents/subAgent.service.ts:84-88 | whatever the environment says, at most 33825 |
| SubAgentService.Service.ResolvePeerTarget | backend/src/agents/subAgent.service.ts:128-160 | unknown callers, callers without an organization and unmatched names give their own errors; otherwise the answer is the verdict on some agent of that name: itself, not allowed, or that agent |
| SubAgentService.MatchesInFields | backend/src/agents/subAgent.service.ts:138-147 | which agents the query may return, in fields |
| SubAgentService.WelcomeInFields | backend/src/agents/subAgent.service.ts:128-188 | when nothing stands in the way of a task, in fields |
| SubAgentService.VerdictsInFields | backend/src/agents/subAgent.service.ts:150-157 | the caller itself, an agent without the scope, and any other get these answers |
| SubAgentService.Service.AssertNoCycle | backend/src/agents/subAgent.service.ts:167-188 | the walk refuses exactly an agent on the walked chain, else exactly a chain of three hops or more |
| SubAgentService.Service.GuardSeesEverything | backend/src/agents/subAgent.service.ts:162-188 | in a reachable state the guard passes exactly for agents nowhere up the chain and chains shorter than the limit, a deleted hand-out at the top counted |
| SubAgentService.Service.CreateInvocations | backend/src/agents/subAgent.service.ts:208-307 | a rejected batch changes nothing; an accepted one passed every check and is the hand-out step; depth, parent, activity and cap errors occur exactly under their conditions; a batch within the cap whose named agents are all permitted is accepted |
| SubAgentService.Service.Dispatch | backend/src/agents/subAgent.service.ts:271-277 | each named task starts a linked run or marks its invocation failed, as the gateway decides |
| SubAgentService.Service.MarkRunning | backend/src/agents/subAgent.service.ts:406-421 | only a queued invocation of the caller becomes running |
| RunEvents.CommitIsSerialAppend | backend/src/agentChat/agentRunService.ts:310-335 | at its commit an appender still knows the true maximum, so the number is free |
| RunEvents.EveryRunIsConsistent | backend/src/agentChat/agentRunService.ts:297-348 | in every interleaving, aborts included, a run's committed numbers are 0 to n-1 and each reader holds a prefix without gap or repeat |
| RunEvents.PollCatchesUp | backend/src/agentChat/agentRunService.ts:358-367 | after a poll the reader has every committed event, once each, in order |
| RunEvents.AppendingInFields | backend/src/agentChat/agentRunService.ts:305-335 | lock, largest number, next number, commit: what each step of an appender writes |
| RunEvents.AbortInFields | backend/src/agentChat/agentRunService.ts:305-335 | giving up, or finding the number taken, releases the lock and writes no row |
| RunEvents.ReadingInFields | backend/src/agentChat/agentRunService.ts:358-367 | a poll is answered exactly by all later events, in order |
| RunEvents.EventLog.Append | backend/src/agentChat/agentRunService.ts:305-335 | reading the maximum and inserting keeps the numbers dense and changes no other row |
| RunEvents.EventLog.ListSince | backend/src/agentChat/agentRunService.ts:358-367 | the page is exactly the later events, ascending |
| RunWait.EagerMeasuresWork | backend/src/agentChat/agentRunService.ts:222-250 | with approvals supplied, the clock is the work since the last pending one and fires exactly when that reaches the limit |
| RunWait.SliceInFields | backend/src/agentChat/agentRunService.ts:222-250 | what one slice does to the clock, with an approval pending, without one, and not knowing |
| RunWait.LazyNeverShowsLess | backend/src/agentChat/agentRunService.ts:230-239 | asking only when needed never shows less work and times out no later |
| RunWait.LazyMeasuresSeenWork | backend/src/agentChat/agentRunService.ts:222-250 | the clock that asks only when needed is the work since the last pending approval it looked at |
| RunWait.ClocksAgreeUnlessWorkIsMissed | backend/src/agentChat/agentRunService.ts:222-250 | both clocks agree exactly when no work lies between that approval and the last pending one |
| RunWait.LazyGivesUpEarlierExactlyWhen | backend/src/agentChat/agentRunService.ts:230-239 | only the lazy wait gives up exactly when the limit lies above the work since the last pending approval and not above the work it counts |
| RunWait.LazyCanGiveUpEarlier | backend/src/agentChat/agentRunService.ts:230-239 | a schedule on which that happens |
| RunWait.WaitForAgentRunCompletion | backend/src/agentChat/agentRunService.ts:252-295 | the loop reports the first poll that shows a finished run or an exhausted limit, a finished run winning |
| CanonicalText.ReadEscaped | backend/src/actions/canonical.ts:23 | every UTF-16 string, lone surrogates included, reads back from its escaped form |
| CanonicalEscapes.WrittenIsShortest | backend/src/actions/canonical.ts:23 | the escaped form is well-formed UTF-16 with lower-case escapes; no well-formed text that reads back as the string is shorter, and none as short and in lower case differs |
| CanonicalText.ReadRendered | backend/src/actions/canonical.ts:17-24 | every number reads back from the notation JavaScript or a bigint prints it in |
| Canonical.ParseRendered | backend/src/actions/canonical.ts:14-36 | every JSON value reads back from its rendering, in any context that ends a value |
| CanonicalForm.PrintsNormalForm | backend/src/actions/canonical.ts:14-36 | the printer throws exactly when there is no normal form and otherwise prints it |
| CanonicalForm.ParseUndoesCanonicalize | backend/src/actions/canonical.ts:10-36 | parsing the text gives the value with undefined members dropped, keys in UTF-16 order and bigints as numbers |
| CanonicalForm.SameTextSameForm | backend/src/actions/canonical.ts:1-9 | two values print alike exactly when their normal forms are equal |
| CanonicalNumbers.NumberPrintsAsBigInt | backend/src/actions/canonical.ts:17-24 | a number prints like a bigint exactly when the bigint is below 1e21 and is, taken literally, the decimal JavaScript writes for the number |
| CanonicalNumbers.ShorterExactlyWhenRounded | backend/src/actions/canonical.ts:21 | a decimal with fewer digits denotes an integral double exactly when one of the two integers beside it that drop its last digit reads as the same double |
| CanonicalNumbers.BigIntPrintsAsNumber | backend/src/actions/canonical.ts:17-24 | a bigint prints like the number it equals exactly below 1e21 and unless such a rounded neighbour reads as that number |
| CanonicalNumbers.SafeIntegersPrintExactly | backend/src/actions/canonical.ts:17-24 | up to 2^53 every bigint equals a number and prints like it |
| CanonicalNumbers.SixtiethPrintsDifferently | backend/src/actions/canonical.ts:17-24 | 2^60 prints differently as a bigint and as a number, and as a number like the bigint 1152921504606847000 |
| CanonicalNumbers.SixtiethIsWritten | backend/src/actions/canonical.ts:21 | that decimal is the notation of 2^60: sixteen digits are needed, and only these do |
| CanonicalNumbers.HugeBigIntPrintsDifferently | backend/src/actions/canonical.ts:24 | from 1e21 on a bigint never prints like the number it equals; 1e21 itself JavaScript writes with one digit |
| CanonicalNumbers.StandsForItselfExactly | backend/src/actions/canonical.ts:17-24 | when exactly a bigint prints like the number equal to it and like no other |
| Notations.NotationExists | backend/src/actions/canonical.ts:21 | every double has a notation: a shortest decimal that reads back as it, and the closest of those |
| Notations.PrinterExists | backend/src/actions/canonical.ts:21 | so a printer that writes each double by a notation of it exists |
| CanonicalValues.SameTextSameValue | backend/src/actions/canonical.ts:1-36 | without bigints of ambiguous text, two values print alike exactly when they are equal as data: the same quantities, items and defined members, in any order of members |
| CanonicalValues.SafeValuesAreUnambiguous | backend/src/actions/canonical.ts:17-24 | bigints up to 2^53 have no ambiguous text, at any depth |
| CanonicalValues.AmbiguityShows | backend/src/actions/canonical.ts:17-24 | a bigint's text is unambiguous exactly when it separates the bigint from the numbers it does not equal, and only those |
| CanonicalForm.CanonicalizeSucceeds | backend/src/actions/canonical.ts:14-36 | printing succeeds exactly without NaN, infinities, functions and symbols, and with undefined only as a member's value |
| CanonicalForm.MemberOrderIsIrrelevant | backend/src/actions/canonical.ts:31-32 | values that differ only in the order of members, at any depth, print alike |
| CanonicalForm.UndefinedMembersAreDropped | backend/src/actions/canonical.ts:31 | an object prints as if its undefined members were not there |
| CanonicalShape.ScalarTexts | backend/src/actions/canonical.ts:14-24 | the texts of null, booleans and strings, and what is rejected |
| CanonicalShape.ArrayTexts | backend/src/actions/canonical.ts:25-28 | an array's items between brackets, with a comma and nothing else between two |
| CanonicalShape.OneMemberText | backend/src/actions/canonical.ts:32 | a member is its quoted key, a colon, and its value |
| CanonicalShape.ObjectTexts | backend/src/actions/canonical.ts:29-34 | members in the order of their keys between braces, with a comma and nothing else between two |
| CanonicalShape.KeysAscend | backend/src/actions/canonical.ts:31 | keys ascend by UTF-16 code units |
| CanonicalShape.PositionalTexts | backend/src/actions/canonical.ts:21 | how a number without an exponent is laid out |
| CanonicalShape.ScientificTexts | backend/src/actions/canonical.ts:21 | how one with an exponent is: one digit, a point if more follow, `e`, a sign, the power in full |
| CanonicalShape.ExponentsExactly | backend/src/actions/canonical.ts:21 | an exponent is written exactly from 1e21 on and below 1e-6 |
| CanonicalShape.BigIntTexts | backend/src/actions/canonical.ts:24 | a bigint is a sign, if negative, and all its digits |
| StableSort.SortIsStable | backend/src/aiBrain/brainQuery.service.ts:240 | the sort orders, permutes and keeps ties in place |
| StableSort.StableSortIsUnique | backend/src/aiBrain/brainQuery.service.ts:240 | and there is only one result that does |
| JitScope.ScopesMeanWhatTheySay | backend/src/actions/jitScope.ts:8-27 | splitting at dots finds exactly the listed types and the tools of servers listed whole, dots in tool names included |
| JitScope.DottedServersCoverNoTool | backend/src/actions/jitScope.ts:11-15 | a wildcard whose server name holds a dot covers nothing but itself |
| JitTokens.EveryRunIsSound | backend/src/actions/actions.service.ts:101-152 | in every run of minting, deciding and starting, tokens on rows are minted for that row's agent and type, and spent ones are on no row |
| JitTokens.ApprovalsAreSpentOnce | backend/src/actions/actions.service.ts:137-152 | starts that needed approval map one to one into minted tokens of the same agent and type; other starts used none |
| JitTokens.TokensWorkOnce | backend/src/actions/actions.service.ts:101-125 | after one admission no later call gets in with the same token, even if the action row was never written |
| JitTokens.ApprovedTokensWork | backend/src/actions/actions.service.ts:109-123 | a token on a row admits exactly calls of the row's agent and type while it is approved |
| JitTokens.AdmissionInFields | backend/src/actions/actions.service.ts:127-152 | each refusal exactly under its condition, a stale or unsigned call first; every other call is admitted |
| JitTokens.BeginInFields | backend/src/actions/actions.service.ts:137-186 | an admitted call writes its action row and takes the token off one row that carried it |
| JitTokens.RequestInFields | backend/src/jit/jit.service.ts:724-730 | an approval row starts undecided and without a token |
| JitTokens.DecisionInFields | backend/src/jit/jit.service.ts:844-860 | what approving and denying write |
| JitTokens.TokenService.ConsumeJitToken | backend/src/actions/actions.service.ts:102-125 | true exactly when an approved row of that agent and type carries the token, and then that row alone loses it |
| JitTokens.TokenService.StartAction | backend/src/actions/actions.service.ts:127-200 | the checks in order are the start step, with its error or its row |
| ActionLedger.EveryRunChargesOnce | backend/src/actions/actions.service.ts:329-341 | in every interleaving each key's debit is one, in at most two rows, and the rows account for the wallet |
| ActionLedger.DebitsStand | backend/src/actions/actions.service.ts:332-341 | nothing later adds to a debit or takes it back |
| ActionLedger.WalletsMatchEvents | backend/src/actions/actions.service.ts:309-341 | the wallet equals first balance plus credits less stored amounts exactly when no completion charged an event stored at nothing |
| ActionLedger.StablePricesMatchEvents | backend/src/actions/actions.service.ts:309-341 | so it always does if each key costs the same at every completion |
| ActionCharges.CheckInFields | backend/src/actions/actions.service.ts:206-221 | which check fails first, and the organization of the action's agent if none does |
| ActionCharges.LookupInFields | backend/src/actions/actions.service.ts:223-240 | a lookup writes nothing, and what the call is told by the row found |
| ActionCharges.TransactInFields | backend/src/actions/actions.service.ts:250-368 | a transaction appends its completion; a failure, or an agent without organization, leaves the ledger alone and is told no amount; a success is charged its price |
| ActionCharges.OthersInFields | backend/src/actions/actions.service.ts:208-219 | changes of start rows and credits touch nothing else |
| ActionCharges.ChargeInFields | backend/src/actions/actions.service.ts:309-341 | the event, the rows and both buckets after a charge |
| ActionCharges.NoWalletIsEmpty | backend/src/billings/lib/recordBillingEvent.ts:22-43 | an organization without a wallet row has nothing |
| ActionCharges.TopUpInFields | backend/src/billings/lib/recordBillingEvent.ts:96-132 | a top-up grows the paid bucket, not the free one |
| ActionCharges.EventsAreCommittedSuccesses | backend/src/actions/actions.service.ts:291-341 | in every run an event is stored exactly for the key, given or else the action's id, of a committed success of an agent with that organization |
| ActionOutcomes.CompletionsAtCommitAreNewer | backend/src/actions/actions.service.ts:223-286 | a completion that is there when a transaction commits was committed after the lookup that let the transaction pass |
| ActionOutcomes.OneCompletionUnlessOvertaken | backend/src/actions/actions.service.ts:223-286 | every action is completed at most once exactly when no call commits between another call's lookup and its commit for the same action |
| ActionOutcomes.TwoLookupsCompleteTwice | backend/src/actions/actions.service.ts:223-286 | two lookups before two commits leave two completions |
| ActionOutcomes.SequentialCallsCompleteOnce | backend/src/actions/actions.service.ts:202-369 | calls that run one at a time complete an action at most once |
| ActionOutcomes.AdmissibleRequestsPassTheChecks | backend/src/actions/actions.service.ts:206-221 | the checks pass exactly for a recent, signed request under the DID of the agent of an existing action |
| ActionOutcomes.AnswersAreDeterminedByAgreement | backend/src/actions/actions.service.ts:223-240 | whether an admissible request is refused is the same whichever row the search finds exactly when all completions of its action agree |
| ActionOutcomes.ContradictoryCompletionsAnswerEitherWay | backend/src/actions/actions.service.ts:223-240 | after two contradictory completions the same retry is accepted or refused, as the row found has it |
| ActionOutcomes.OutcomesAreSettled | backend/src/actions/actions.service.ts:223-240 | where nobody overtakes, a completed action's row is what every later search finds: an admissible request that agrees gets it as its answer, any other is refused |
| ActionOutcomes.SequentialOutcomesAreSettled | backend/src/actions/actions.service.ts:202-240 | the same after calls that run one at a time |
| ActionLedger.ActionsService.FindCompletionFor | backend/src/actions/actions.service.ts:413-419 | the search finds some completion of the action, in whatever order the rows come, and none exactly if there is none |
| ActionLedger.ActionsService.BeginComplete | backend/src/actions/actions.service.ts:206-240 | the checks in their order and the search come to the lookup step for the row found |
| ActionLedger.ActionsService.FinishComplete | backend/src/actions/actions.service.ts:250-368 | the second half is the transaction step, with its answer |
| ActionLedger.ActionsService.CompleteAction | backend/src/actions/actions.service.ts:202-369 | both halves together are the two steps in a row |
| Billing.EveryRunIsSound | backend/src/actions/actions.service.ts:309-341 | over every run of charges and top-ups: one event per key, one debit per event, and the rows are exactly the change of each wallet |
| Billing.DebitMoves | backend/src/billings/lib/recordBillingEvent.ts:44-56 | a debit keeps balance and buckets in step, never overdraws free credit, and touches paid credit only when free credit is used up |
| Billing.DebitRowsShape | backend/src/billings/lib/recordBillingEvent.ts:58-84 | a debit's rows are one per bucket touched and add up to the price |
| Billing.DebitsAreFinal | backend/src/actions/actions.service.ts:332-341 | a debited event is never debited again |
| Billing.WalletMatchesStoredAmounts | backend/src/actions/actions.service.ts:309-341 | the exact condition under which the wallet matches the stored amounts |
| Billing.StablePricesNeverChargeLate | backend/src/billings/lib/priceLookup.ts:46-75 | it holds whenever each key always costs the same |
| Billing.RepricedKeyIsChargedLate | backend/src/billings/lib/priceLookup.ts:46-68 | a service priced between two completions of one key breaks it |
| Billing.Tables.DebitWalletTwoBucket | backend/src/billings/lib/recordBillingEvent.ts:22-94 | the bucket arithmetic writes exactly the specified rows and wallet |
| Billing.Tables.RecordEvent | backend/src/actions/actions.service.ts:309-341 | upsert, check and debit are the charge step |
| Billing.Tables.CreditPaidBalance | backend/src/billings/lib/recordBillingEvent.ts:96-132 | a positive top-up credits the paid bucket and writes its row; others are refused |
| ProvisioningQueue.MaxConcurrent | backend/src/cloudRunners/provisioningQueue.ts:25-29 | the limit lies between 1 and 4 and is the configured one if that does |
| ProvisioningQueue.EveryRunIsAccounted | backend/src/cloudRunners/provisioningQueue.ts:54-79 | after every step at most `max` jobs are active, jobs wait only while that many are, queued keys differ, and accepted jobs are lost, started and queued ones, in order |
| ProvisioningQueue.StartsAreFifo | backend/src/cloudRunners/provisioningQueue.ts:65-79 | of the jobs not lost, exactly the first (completions + limit) have started |
| ProvisioningQueue.JobsWaitTheirTurn | backend/src/cloudRunners/provisioningQueue.ts:65-79 | a job with p ahead of it starts at exactly the (p+1)-th completion, whatever is enqueued meanwhile |
| ProvisioningQueue.JobsRunUntilTheySettle | backend/src/cloudRunners/provisioningQueue.ts:65-79 | a job can settle exactly while it was started more often than it has settled |
| ProvisioningQueue.JobsAreLostOnlyBeforeTheHandler | backend/src/cloudRunners/provisioningQueue.ts:66-68 | no job is lost exactly when the handler is set before the first enqueue |
| ProvisioningQueue.KeysTellJobsApart | backend/src/cloudRunners/provisioningQueue.ts:82-91 | for agent ids without a colon, keys agree exactly for the same kind, agent and team |
| ProvisioningQueue.KeysAgreeExactly | backend/src/cloudRunners/provisioningQueue.ts:82-91 | keys agree exactly for the same kind, agent and team, or for two teams where a colon in one agent id is taken for the separator |
| ProvisioningQueue.Queue.Add | backend/src/cloudRunners/provisioningQueue.ts:54-59 | enqueueing is the enqueue step |
| ProvisioningQueue.Queue.DrainQueue | backend/src/cloudRunners/provisioningQueue.ts:65-79 | the loop hands over what the specification of a drain says |
| ProvisioningQueue.DrainTakesWhatFits | backend/src/cloudRunners/provisioningQueue.ts:65-79 | a drain with a handler takes as many jobs from the front as there is room for |
| ProvisioningQueue.Queue.OnSettled | backend/src/cloudRunners/provisioningQueue.ts:70-77 | a settled promise, either way, is the completion step |
| ProvisioningQueue.Queue.PendingCount | backend/src/cloudRunners/provisioningQueue.ts:61-63 | the count is the accepted jobs neither lost nor finished |
| SendThrottle.SendsStartInCallOrder | qlix-whatsapp-service/src/sessionManager.js:475-489 | sends of a connector start in call order, each once, rejected or not, and all have run when the chain is empty |
| SendThrottle.WindowsAreBounded | qlix-whatsapp-service/src/sessionManager.js:466-481 | no window of length w sees more than w / interval + 1 starts |
| SendThrottle.ConnectorsAreIndependent | qlix-whatsapp-service/src/sessionManager.js:472-476 | a connector's chain is where it would be had only its own calls happened |
| SendThrottle.ChainsRunEmpty | qlix-whatsapp-service/src/sessionManager.js:475-489 | from any phase and under any schedule and outcomes, a chain without new calls is empty after exactly as many due steps as it had left |
| SendThrottle.SomethingIsDue | qlix-whatsapp-service/src/sessionManager.js:478-488 | until then some step is due, at the latest when the sleep is over |
| SendThrottle.StepsInFields | qlix-whatsapp-service/src/sessionManager.js:475-489 | what a call, a turn, a send and a settled send do to the chain; the wait ends at the last send plus the interval, or at once |
| SendThrottle.Throttle.ThrottledSend | qlix-whatsapp-service/src/sessionManager.js:475-489 | a call goes to the end of its connector's chain |
| SendThrottle.Throttle.TakeTurn | qlix-whatsapp-service/src/sessionManager.js:478-480 | the wait is what is missing to the minimum spacing |
| SendThrottle.Throttle.SendNow | qlix-whatsapp-service/src/sessionManager.js:481-482 | the send notes its time and starts |
| SendThrottle.Throttle.OnSettled | qlix-whatsapp-service/src/sessionManager.js:482-488 | a settled send, rejected or not, frees the chain and reports its own outcome |
| TopChunks.RetrieveTopChunks | backend/src/aiBrain/brainQuery.service.ts:191-247 | for every page size and every limit the loops give the first `topK` of the stable descending sort of all embedded rows |
| TopChunks.TruncatedInsert | backend/src/aiBrain/brainQuery.service.ts:239-241 | what a truncation drops would be dropped again later |
| TopChunks.BestBeatsTheRest | backend/src/aiBrain/brainQuery.service.ts:191-193 | nothing left out scores better than anything kept |
| TopChunks.ThresholdKeepsPrefix | backend/src/aiBrain/brainQuery.service.ts:311-313 | the score filter keeps exactly a prefix |
| TopChunks.ThresholdAfterTruncation | backend/src/aiBrain/brainQuery.service.ts:305-313 | filtering after truncating gives the first `topK` of all rows that reach the threshold |
| TopChunks.QueryContext | backend/src/aiBrain/brainQuery.service.ts:305-375 | the blocks and citations are those of the relevant rows, also when there are none |
| TopChunks.LabelsMatchCitations | backend/src/aiBrain/brainQuery.service.ts:249-266 | block n is numbered n and speaks of citation n, trimmed blocks included |
| TopChunks.RelevantInFields | backend/src/aiBrain/brainQuery.service.ts:313 | no threshold keeps everything, another exactly what reaches it |
| TopChunks.ContextInFields | backend/src/aiBrain/brainQuery.service.ts:249-375 | every part of a block and of a citation, trimmed under the budget |
| AssessmentMerge.MergeAssessmentFindings | backend/src/assessment/assessmentToolRoutes.ts:47-68 | the loops over a map and the previous list compute the merge |
| AssessmentMerge.MergeReplaces | backend/src/assessment/assessmentToolRoutes.ts:47-68 | each key of the batch ends with one row, its last value, and everything else stays, in order |
| AssessmentMerge.MergeIsIdempotent | backend/src/assessment/assessmentToolRoutes.ts:47-68 | merging the same batch again changes nothing, not even the order |
| AssessmentMerge.MergeOverrides | backend/src/assessment/assessmentToolRoutes.ts:47-68 | the merged list says what the previous one said, overridden by the batch |
| AssessmentMerge.StoredInFields | backend/src/assessment/assessmentToolRoutes.ts:522-540 | the last verdict on a criterion is stored under the evaluator's name with its payload, and what the batch does not name stays |
| AssessmentMerge.RecordingReplacesUnlessFirst | backend/src/assessment/assessmentToolRoutes.ts:522-540 | after a batch each of its keys has one row exactly when there was a record already or its criteria differ |
| AssessmentMerge.DuplicatesStayUntilNamedAgain | backend/src/assessment/assessmentToolRoutes.ts:522-540 | over a session, a key has more than one row exactly when the first batch repeats it and no later batch names it |
| AssessmentMerge.FirstBatchKeepsDuplicates | backend/src/assessment/assessmentToolRoutes.ts:537-539 | for instance a criterion named twice in the first batch keeps more than one row |
| AssessmentMerge.InterleavingsAgree | backend/src/assessment/assessmentToolRoutes.ts:522-540 | any two interleavings that keep each evaluator's own order end up saying the same |

## Left out

- HTTP, request parsing, OAuth, the extension, the frontend and tool wrappers: plumbing around the modelled functions.
- Model calls, prompts, embeddings and cosine arithmetic: arbitrary answers, predicates, and a similarity given as a function.
- Signatures, hashes and encryption: a request verifies or it does not. The `prevHash` chain follows timestamps the caller supplies, so it is no chain to prove.
- The builder's session lock: best effort; nothing here needs it. The phase, the transcript and the memory summaries of a session are not modelled.
- Storage failures: a builder turn may vanish at any point, and a transaction that fails is one that did not happen.
- Row ids are creation numbers and messages are named by their sequence number.
- BuilderStore.Conversation.PersistDiscovery: the order of the unique-key and version checks is that of statements in one serial transaction; how a database serialises concurrent ones is not modelled.
- RunCancellation.RunStore.CancelAgentRun: runs as one sequential call; steps of other requests between its statements are not modelled, nor is the denial of pending approvals.
- SubAgentService.Service.CreateInvocations: one atomic step, from the checks to the last link; a failure of the gateway other than a refusal, between linked and unlinked tasks, is not modelled.
- SubAgentService.Service.Dispatch: the text of the gateway's refusal and the names, prompts and skills of tasks are not modelled.
- SubAgentService.Service.ResolvePeerTarget: which agent is taken when several carry the name is open, as it is in the query.
- RunEvents.EventLog.Append: the trace stamped on an event and its publication are not modelled.
- JitTokens.TokenService.ConsumeJitToken: which row is taken if several match is the first; in reachable states there is one. The look-up and the update that follows it by row id are one step, as in a serial transaction; the update itself does not check the token again.
- ActionLedger.ActionsService.BeginComplete: the start row and the completions are read at one moment; an agent deleted between the two reads is not modelled.
- ActionLedger.ActionsService.FinishComplete: the billing log row, the billing cycle and the hash of the previous signature are not modelled; the price is an input.
- Billing: other writers of events and wallets (the ingest route, subscription renewals, exempt accounts) and the low-balance notice.
- Canonical: a number in a value is given by the decimal JavaScript writes for it. Which decimals those are is said by `Doubles.IsNotationOf`, up to the choice between two equally close ones. Not modelled: cyclic values, array holes, getters and `toJSON` methods, and values whose prototype carries members.
- ProvisioningQueue.Queue.DrainQueue: a handler that enqueues or throws before its first suspension.
- SendThrottle: clocks that run backwards, timers that fire early, and an interval that is not a number.
- TopChunks.RetrieveTopChunks: rows that change between two pages, scores that are not numbers, and limits that are not integers.
- AssessmentMerge: other writers of a session's record, and the checks on evidence references before the transaction.
- DiscoveryNormalize: scores are hundredths, so the rounding of binary fractions does not appear; the coercion and repair of the model's raw answer.
- Scope-list helpers, prompt packs, clipping and buffer caps are not modelled.
