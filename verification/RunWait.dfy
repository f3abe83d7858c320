/** The agent-run timeout: time spent waiting for a human approval does not count, and work after an
    approval gets a fresh window. */
module RunWait {
  import opened Wrappers
  import opened AgentRuns

  datatype Slice = Slice(activeMs: int, holdingForJit: bool, timedOut: bool, needsJitCheck: bool)

  function Max0(ms: int): int {
    if ms > 0 then ms else 0
  }

  function ApplyAgentRunWaitSlice(sliceMs: int, activeMs: int, timeoutMs: int, holdingForJit: bool,
                                  jitPending: Option<bool>): Slice
  {
    var needsJitCheck := holdingForJit || activeMs + Max0(sliceMs) >= timeoutMs;
    if needsJitCheck && jitPending.None? then Slice(activeMs, holdingForJit, false, true)
    else if jitPending == Some(true) then Slice(0, true, false, false)
    else
      var active := (if holdingForJit then 0 else activeMs) + Max0(sliceMs);
      Slice(active, false, active >= timeoutMs, false)
  }

  /** One slice: work is the time that has passed, never negative; with an approval pending the clock is put back
      and holds; else it starts anew after holding, and has run out at the limit. Without knowing, the slice asks if
      it matters. */
  lemma SliceInFields(sliceMs: int, activeMs: int, timeoutMs: int, holding: bool)
    ensures var work := if sliceMs < 0 then 0 else sliceMs;
            var active := if holding then work else activeMs + work;
            && ApplyAgentRunWaitSlice(sliceMs, activeMs, timeoutMs, holding, Some(true)) == Slice(0, true, false, false)
            && ApplyAgentRunWaitSlice(sliceMs, activeMs, timeoutMs, holding, Some(false))
               == Slice(active, false, active >= timeoutMs, false)
            && ApplyAgentRunWaitSlice(sliceMs, activeMs, timeoutMs, holding, None)
               == (if holding || activeMs + work >= timeoutMs then Slice(activeMs, holding, false, true)
                   else Slice(active, false, false, false))
  {
  }

  // ---------------------------------------------------------------- a schedule of slices

  datatype Tick = Tick(sliceMs: int, pending: bool)

  /** The wait with the approval state supplied at every tick. */
  function Eager(ticks: seq<Tick>, timeoutMs: int): Slice {
    if ticks == [] then Slice(0, false, false, false)
    else
      var before, t := Eager(ticks[..|ticks| - 1], timeoutMs), ticks[|ticks| - 1];
      ApplyAgentRunWaitSlice(t.sliceMs, before.activeMs, timeoutMs, before.holdingForJit, Some(t.pending))
  }

  /** The wait that looks at the approval state only when it is asked to. */
  function Lazy(ticks: seq<Tick>, timeoutMs: int): Slice {
    if ticks == [] then Slice(0, false, false, false)
    else
      var before, t := Lazy(ticks[..|ticks| - 1], timeoutMs), ticks[|ticks| - 1];
      var first := ApplyAgentRunWaitSlice(t.sliceMs, before.activeMs, timeoutMs, before.holdingForJit, None);
      if first.needsJitCheck
      then ApplyAgentRunWaitSlice(t.sliceMs, before.activeMs, timeoutMs, before.holdingForJit, Some(t.pending))
      else first
  }

  // ---------------------------------------------------------------- what it should measure

  /** The position just after the last tick with an approval pending. */
  function LastPending(ticks: seq<Tick>): nat
    ensures LastPending(ticks) <= |ticks|
  {
    if ticks == [] then 0
    else if ticks[|ticks| - 1].pending then |ticks|
    else LastPending(ticks[..|ticks| - 1])
  }

  function WorkIn(ticks: seq<Tick>): int {
    if ticks == [] then 0 else WorkIn(ticks[..|ticks| - 1]) + Max0(ticks[|ticks| - 1].sliceMs)
  }

  /** Work since the last approval that was pending. */
  function WorkSinceApproval(ticks: seq<Tick>): int {
    WorkIn(ticks[LastPending(ticks)..])
  }

  lemma {:induction false} LastPendingIsLast(ticks: seq<Tick>)
    ensures forall i :: LastPending(ticks) <= i < |ticks| ==> !ticks[i].pending
    ensures LastPending(ticks) > 0 ==> ticks[LastPending(ticks) - 1].pending
  {
    if ticks != [] && !ticks[|ticks| - 1].pending { LastPendingIsLast(ticks[..|ticks| - 1]); }
  }

  /** The clock shows exactly the work since the last pending approval, and it fires exactly when that
      work reaches the limit. */
  lemma {:induction false} EagerMeasuresWork(ticks: seq<Tick>, timeoutMs: int)
    ensures var s := Eager(ticks, timeoutMs);
            && s.activeMs == WorkSinceApproval(ticks)
            && (s.holdingForJit <==> ticks != [] && ticks[|ticks| - 1].pending)
            && (s.timedOut <==> ticks != [] && !ticks[|ticks| - 1].pending && WorkSinceApproval(ticks) >= timeoutMs)
            && !s.needsJitCheck
  {
    if ticks != [] {
      var init, t := ticks[..|ticks| - 1], ticks[|ticks| - 1];
      EagerMeasuresWork(init, timeoutMs);
      if t.pending {
        assert ticks[|ticks|..] == [];
      } else {
        var k := LastPending(init);
        assert ticks[k..][..|ticks[k..]| - 1] == init[k..];
        if init != [] && init[|init| - 1].pending { assert init[|init|..] == []; }
      }
    }
  }

  /** Asking only when needed may miss an approval, but it never shows less work than asking always;
      so it times out no later. */
  lemma {:induction false} LazyNeverShowsLess(ticks: seq<Tick>, timeoutMs: int)
    ensures Lazy(ticks, timeoutMs).activeMs >= Eager(ticks, timeoutMs).activeMs >= 0
    ensures Lazy(ticks, timeoutMs).holdingForJit ==> Eager(ticks, timeoutMs).holdingForJit
    ensures Eager(ticks, timeoutMs).holdingForJit ==> Eager(ticks, timeoutMs).activeMs == 0
    ensures Lazy(ticks, timeoutMs).holdingForJit ==> Lazy(ticks, timeoutMs).activeMs == 0
    ensures Eager(ticks, timeoutMs).timedOut ==> Lazy(ticks, timeoutMs).timedOut
    ensures Lazy(ticks, timeoutMs).timedOut ==> !ticks[|ticks| - 1].pending
  {
    if ticks != [] { LazyNeverShowsLess(ticks[..|ticks| - 1], timeoutMs); }
  }

  /** The position just after the last pending approval the lazy wait gets to see: it looks while it holds
      for one it saw, and when the work since then would exhaust the limit. */
  function LastSeen(ticks: seq<Tick>, timeoutMs: int): (n: nat)
    ensures n <= |ticks|
  {
    if ticks == [] then 0
    else
      var n, seen := |ticks| - 1, LastSeen(ticks[..|ticks| - 1], timeoutMs);
      var looks := (seen == n && n > 0) || WorkIn(ticks[seen..]) >= timeoutMs;
      if looks && ticks[n].pending then |ticks| else seen
  }

  lemma WorkSnoc(ticks: seq<Tick>, k: nat)
    requires k < |ticks|
    ensures WorkIn(ticks[k..]) == WorkIn(ticks[..|ticks| - 1][k..]) + Max0(ticks[|ticks| - 1].sliceMs)
  {
    assert ticks[k..][..|ticks[k..]| - 1] == ticks[..|ticks| - 1][k..];
  }

  lemma {:induction false} WorkSplits(ticks: seq<Tick>, j: nat, k: nat)
    requires j <= k <= |ticks|
    ensures WorkIn(ticks[j..]) == WorkIn(ticks[j..k]) + WorkIn(ticks[k..]) && WorkIn(ticks[j..k]) >= 0
    decreases |ticks|
  {
    if k < |ticks| {
      var init := ticks[..|ticks| - 1];
      WorkSplits(init, j, k);
      WorkSnoc(ticks, j);
      WorkSnoc(ticks, k);
      assert init[j..k] == ticks[j..k];
    } else {
      assert ticks[j..k] == ticks[j..] && ticks[k..] == [];
      WorkIsPositive(ticks[j..]);
    }
  }

  lemma {:induction false} WorkIsPositive(ticks: seq<Tick>)
    ensures WorkIn(ticks) >= 0
  {
    if ticks != [] { WorkIsPositive(ticks[..|ticks| - 1]); }
  }

  /** What the lazy wait sees is pending, and nothing it sees comes after the last pending tick. */
  lemma {:induction false} SeenIsPending(ticks: seq<Tick>, timeoutMs: int)
    ensures LastSeen(ticks, timeoutMs) <= LastPending(ticks)
    ensures LastSeen(ticks, timeoutMs) > 0 ==> ticks[LastSeen(ticks, timeoutMs) - 1].pending
  {
    if ticks != [] { SeenIsPending(ticks[..|ticks| - 1], timeoutMs); }
  }

  /** The lazy clock shows exactly the work since the last pending approval it saw. */
  lemma {:induction false} LazyMeasuresSeenWork(ticks: seq<Tick>, timeoutMs: int)
    ensures var s, seen := Lazy(ticks, timeoutMs), LastSeen(ticks, timeoutMs);
            && s.activeMs == WorkIn(ticks[seen..])
            && (s.holdingForJit <==> ticks != [] && seen == |ticks|)
            && (s.timedOut <==> ticks != [] && seen < |ticks| && WorkIn(ticks[seen..]) >= timeoutMs)
  {
    if ticks != [] {
      var init := ticks[..|ticks| - 1];
      LazyMeasuresSeenWork(init, timeoutMs);
      WorkSnoc(ticks, LastSeen(init, timeoutMs));
      assert ticks[|ticks|..] == [] && init[|init|..] == [];
    }
  }

  /** The two clocks agree exactly when no work lies between the last pending approval the lazy wait saw and
      the last there was. */
  lemma ClocksAgreeUnlessWorkIsMissed(ticks: seq<Tick>, timeoutMs: int)
    ensures LastSeen(ticks, timeoutMs) <= LastPending(ticks)
    ensures Lazy(ticks, timeoutMs).activeMs == Eager(ticks, timeoutMs).activeMs
            <==> WorkIn(ticks[LastSeen(ticks, timeoutMs)..LastPending(ticks)]) == 0
  {
    SeenIsPending(ticks, timeoutMs);
    LazyMeasuresSeenWork(ticks, timeoutMs);
    EagerMeasuresWork(ticks, timeoutMs);
    WorkSplits(ticks, LastSeen(ticks, timeoutMs), LastPending(ticks));
  }

  /** The lazy wait gives up although the eager one goes on exactly when the limit lies between the work it
      counts and the work since the last pending approval. */
  lemma LazyGivesUpEarlierExactlyWhen(ticks: seq<Tick>, timeoutMs: int)
    ensures Lazy(ticks, timeoutMs).timedOut && !Eager(ticks, timeoutMs).timedOut
            <==> ticks != [] && LastSeen(ticks, timeoutMs) < |ticks|
                 && WorkSinceApproval(ticks) < timeoutMs <= WorkIn(ticks[LastSeen(ticks, timeoutMs)..])
  {
    LazyMeasuresSeenWork(ticks, timeoutMs);
    EagerMeasuresWork(ticks, timeoutMs);
    LazyNeverShowsLess(ticks, timeoutMs);
  }

  /** And it happens: here only the lazy wait gives up. */
  lemma LazyCanGiveUpEarlier()
    ensures var ticks := [Tick(5, true), Tick(5, false)];
            Lazy(ticks, 10).timedOut && !Eager(ticks, 10).timedOut
  {
    var ticks := [Tick(5, true), Tick(5, false)];
    assert ticks[..1] == [Tick(5, true)] && ticks[..1][..0] == [];
  }

  // ---------------------------------------------------------------- the polling loop

  /** One poll: the run's status, the time since the previous poll, and whether an approval is open. */
  datatype Poll = Poll(status: RunStatus, tick: Tick)

  datatype WaitResult = Finished(at: nat, status: RunStatus) | TimedOut(at: nat) | StillWaiting

  function Ticks(polls: seq<Poll>): seq<Tick> {
    seq(|polls|, i requires 0 <= i < |polls| => polls[i].tick)
  }

  /** The first n polls neither end the wait nor exceed the limit. */
  ghost predicate Quiet(polls: seq<Poll>, n: nat, timeoutMs: int)
    requires n <= |polls|
  {
    forall i :: 0 <= i < n ==> !IsAgentRunTerminal(polls[i].status) && !Exceeds(polls, i, timeoutMs)
  }

  predicate Exceeds(polls: seq<Poll>, i: nat, timeoutMs: int)
    requires i < |polls|
  {
    !polls[i].tick.pending && WorkSinceApproval(Ticks(polls[..i + 1])) >= timeoutMs
  }

  lemma OnePoll(polls: seq<Poll>, i: nat, timeoutMs: int)
    requires i < |polls|
    ensures var before, tick := Eager(Ticks(polls[..i]), timeoutMs), polls[i].tick;
            var slice := ApplyAgentRunWaitSlice(tick.sliceMs, before.activeMs, timeoutMs, before.holdingForJit,
                                                Some(tick.pending));
            Eager(Ticks(polls[..i + 1]), timeoutMs) == slice && (slice.timedOut <==> Exceeds(polls, i, timeoutMs))
  {
    assert Ticks(polls[..i + 1])[..i] == Ticks(polls[..i]);
    EagerMeasuresWork(Ticks(polls[..i + 1]), timeoutMs);
  }

  /** Reports the first poll that shows a finished run or an exhausted limit, whichever comes first;
      a finished run wins when both show at once. */
  method WaitForAgentRunCompletion(polls: seq<Poll>, timeoutMs: int) returns (r: WaitResult)
    ensures match r
            case Finished(at, status) =>
              at < |polls| && Quiet(polls, at, timeoutMs) && polls[at].status == status && IsAgentRunTerminal(status)
            case TimedOut(at) =>
              at < |polls| && Quiet(polls, at, timeoutMs) && !IsAgentRunTerminal(polls[at].status) &&
                Exceeds(polls, at, timeoutMs)
            case StillWaiting => Quiet(polls, |polls|, timeoutMs)
  {
    var activeMs, holdingForJit := 0, false;
    for i := 0 to |polls|
      invariant Quiet(polls, i, timeoutMs)
      invariant activeMs == Eager(Ticks(polls[..i]), timeoutMs).activeMs
      invariant holdingForJit == Eager(Ticks(polls[..i]), timeoutMs).holdingForJit
    {
      if IsAgentRunTerminal(polls[i].status) { return Finished(i, polls[i].status); }
      var tick := polls[i].tick;
      var slice := ApplyAgentRunWaitSlice(tick.sliceMs, activeMs, timeoutMs, holdingForJit, Some(tick.pending));
      OnePoll(polls, i, timeoutMs);
      activeMs, holdingForJit := slice.activeMs, slice.holdingForJit;
      if slice.timedOut { return TimedOut(i); }
    }
    r := StillWaiting;
  }
}
