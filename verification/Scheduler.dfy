/** The interval scheduler as a concurrent state machine: one loop goroutine, any number of Stop callers,
    ticks, and cancellation, interleaved at every lock and channel operation (package `scheduler`). */
module Scheduler {

  /** The loop goroutine: waiting in select, running a sync, exiting with the flags set but the channel
      not yet closed, gone. */
  datatype LoopPc = Waiting | Syncing | Closing | Gone

  /** A Stop call: past its running check, past the stop request and waiting, past the wait, returned. */
  datatype StopPc = Checked | Awaiting | Marking | Returned(ok: bool)

  datatype State = State(
    running: bool,
    stopped: bool,
    ctxDone: bool,
    stopOnce: bool,
    closeOnce: bool,
    stopCloses: nat,
    stoppedCloses: nat,
    loops: seq<LoopPc>,
    stops: map<nat, StopPc>,
    totalRuns: nat,
    successfulRuns: nat,
    failedRuns: nat)

  const FRESH := State(false, false, false, false, false, 0, 0, [], map[], 0, 0, 0)

  datatype Step =
    | Start
    | CancelContext
    | Tick(l: nat)
    | FinishSync(l: nat, hasError: bool)
    | Exit(l: nat)
    | CloseStopped(l: nat)
    | CallStop(j: nat)
    | RequestStop(j: nat)
    | SeeStopped(j: nat)
    | MarkStopped(j: nat)

  predicate LoopAt(s: State, l: nat, pc: LoopPc) {
    l < |s.loops| && s.loops[l] == pc
  }

  predicate StopAt(s: State, j: nat, pc: StopPc) {
    j in s.stops && s.stops[j] == pc
  }

  predicate Enabled(s: State, step: Step) {
    match step
    case Start => true
    case CancelContext => true
    case Tick(l) => LoopAt(s, l, Waiting)
    case FinishSync(l, _) => LoopAt(s, l, Syncing)
    case Exit(l) => LoopAt(s, l, Waiting) && (s.ctxDone || s.stopCloses > 0)
    case CloseStopped(l) => LoopAt(s, l, Closing)
    case CallStop(j) => j !in s.stops
    case RequestStop(j) => StopAt(s, j, Checked)
    case SeeStopped(j) => StopAt(s, j, Awaiting) && s.stoppedCloses > 0
    case MarkStopped(j) => StopAt(s, j, Marking)
  }

  function Take(s: State, step: Step): State
    requires Enabled(s, step)
  {
    match step
    case Start =>
      if s.running || s.stopped then s else s.(running := true, loops := s.loops + [Waiting])
    case CancelContext => s.(ctxDone := true)
    case Tick(l) => s.(loops := s.loops[l := Syncing], totalRuns := s.totalRuns + 1)
    case FinishSync(l, hasError) =>
      var t := s.(loops := s.loops[l := Waiting]);
      if hasError then t.(failedRuns := t.failedRuns + 1) else t.(successfulRuns := t.successfulRuns + 1)
    case Exit(l) =>
      if s.closeOnce then s.(loops := s.loops[l := Gone])
      else s.(closeOnce := true, stopped := true, running := false, loops := s.loops[l := Closing])
    case CloseStopped(l) => s.(stoppedCloses := s.stoppedCloses + 1, loops := s.loops[l := Gone])
    case CallStop(j) => s.(stops := s.stops[j := if s.running then Checked else Returned(false)])
    case RequestStop(j) =>
      var t := s.(stops := s.stops[j := Awaiting]);
      if s.stopOnce then t else t.(stopOnce := true, stopCloses := s.stopCloses + 1)
    case SeeStopped(j) => s.(stops := s.stops[j := Marking])
    case MarkStopped(j) => s.(stopped := true, stops := s.stops[j := Returned(true)])
  }

  ghost predicate IsRun(run: seq<State>, steps: seq<Step>) {
    && |run| == |steps| + 1
    && run[0] == FRESH
    && forall k :: 0 <= k < |steps| ==> Enabled(run[k], steps[k]) && run[k + 1] == Take(run[k], steps[k])
  }

  ghost predicate Inv(s: State) {
    && |s.loops| <= 1
    && (|s.loops| == 0 ==> !s.running && !s.stopped && !s.closeOnce && s.stoppedCloses == 0 && s.totalRuns == 0)
    && (|s.loops| == 1 ==>
          var pc := s.loops[0];
          && (s.running <==> pc == Waiting || pc == Syncing)
          && (s.stopped <==> pc == Closing || pc == Gone)
          && (s.closeOnce <==> pc == Closing || pc == Gone)
          && s.stoppedCloses == if pc == Gone then 1 else 0)
    && s.stopCloses == (if s.stopOnce then 1 else 0)
    && s.totalRuns == s.successfulRuns + s.failedRuns + InFlight(s)
    && (forall j :: j in s.stops && (s.stops[j] == Marking || s.stops[j] == Returned(true)) ==> LoopAt(s, 0, Gone))
    && (forall j :: j in s.stops && s.stops[j] != Returned(false) ==> |s.loops| == 1)
  }

  /** One exactly while a sync is in progress. */
  function InFlight(s: State): nat {
    if LoopAt(s, 0, Syncing) then 1 else 0
  }

  lemma StartKeepsInv(s: State, step: Step)
    requires Inv(s) && Enabled(s, step) && (step.Start? || step.CancelContext?)
    ensures Inv(Take(s, step))
  {
  }

  lemma SyncKeepsInv(s: State, step: Step)
    requires Inv(s) && Enabled(s, step) && (step.Tick? || step.FinishSync?)
    ensures Inv(Take(s, step))
  {
    assert step.l == 0;
  }

  lemma ExitKeepsInv(s: State, step: Step)
    requires Inv(s) && Enabled(s, step) && (step.Exit? || step.CloseStopped?)
    ensures Inv(Take(s, step))
  {
    assert step.l == 0;
  }

  lemma StopKeepsInv(s: State, step: Step)
    requires Inv(s) && Enabled(s, step)
    requires step.CallStop? || step.RequestStop? || step.SeeStopped? || step.MarkStopped?
    ensures Inv(Take(s, step))
  {
    assert Take(s, step).loops == s.loops;
  }

  lemma StepKeepsInv(s: State, step: Step)
    requires Inv(s) && Enabled(s, step)
    ensures Inv(Take(s, step))
  {
    if step.Start? || step.CancelContext? {
      StartKeepsInv(s, step);
    } else if step.Tick? || step.FinishSync? {
      SyncKeepsInv(s, step);
    } else if step.Exit? || step.CloseStopped? {
      ExitKeepsInv(s, step);
    } else {
      StopKeepsInv(s, step);
    }
  }

  lemma {:induction false} RunInv(run: seq<State>, steps: seq<Step>, k: nat)
    requires IsRun(run, steps) && k < |run|
    ensures Inv(run[k])
  {
    if k > 0 {
      RunInv(run, steps, k - 1);
      StepKeepsInv(run[k - 1], steps[k - 1]);
    }
  }

  /** Over every interleaving: at most one loop is ever spawned, no channel is closed twice, and every
      counted run has succeeded, failed or is the one in progress. */
  lemma SchedulerSafe(run: seq<State>, steps: seq<Step>, k: nat)
    requires IsRun(run, steps) && k < |run|
    ensures |run[k].loops| <= 1 && run[k].stopCloses <= 1 && run[k].stoppedCloses <= 1
    ensures run[k].totalRuns == run[k].successfulRuns + run[k].failedRuns + InFlight(run[k])
  {
    RunInv(run, steps, k);
  }

  /** What a step does to the counters. */
  lemma StepCounts(s: State, step: Step)
    requires Enabled(s, step)
    ensures var t := Take(s, step);
            && t.failedRuns == s.failedRuns + (if step.FinishSync? && step.hasError then 1 else 0)
            && t.successfulRuns == s.successfulRuns + (if step.FinishSync? && !step.hasError then 1 else 0)
            && t.totalRuns == s.totalRuns + (if step.Tick? then 1 else 0)
  {
    if step.Tick? || step.FinishSync? {
    } else if step.Start? || step.CancelContext? || step.Exit? || step.CloseStopped? {
    } else {
    }
  }

  /** A scheduler that is neither running nor stopped starts its loop, whatever its context; any other stays as it
      is. */
  lemma StartStarts(s: State)
    ensures Enabled(s, Start)
    ensures var t := Take(s, Start);
            if s.running || s.stopped then t == s
            else t.running && t.loops == s.loops + [Waiting] && t.totalRuns == s.totalRuns
  {
  }

  /** A waiting loop leaves once the context is cancelled or a stop has been requested, and not before. */
  lemma LoopLeaves(s: State, l: nat)
    requires LoopAt(s, l, Waiting)
    ensures Enabled(s, Exit(l)) <==> s.ctxDone || s.stopCloses > 0
    ensures Enabled(Take(s, CancelContext), Exit(l))
    ensures Enabled(s, Tick(l)) && LoopAt(Take(s, Tick(l)), l, Syncing)
  {
  }

  /** A Stop call fails at once exactly when nothing is running. */
  lemma StopNeedsRunning(s: State, j: nat)
    requires j !in s.stops
    ensures Enabled(s, CallStop(j))
    ensures StopAt(Take(s, CallStop(j)), j, Returned(false)) <==> !s.running
    ensures StopAt(Take(s, CallStop(j)), j, Checked) <==> s.running
  {
  }

  /** From any reachable state with a waiting loop a Stop call that has passed its check can return: its request lets
      the loop leave, the loop's end lets it go on, and it returns without an error, with the scheduler stopped. */
  lemma StopCanReturn(run: seq<State>, steps: seq<Step>, j: nat) returns (t: State)
    requires IsRun(run, steps) && StopAt(run[|steps|], j, Checked) && LoopAt(run[|steps|], 0, Waiting)
    ensures var s1 := Take(run[|steps|], RequestStop(j));
            && Enabled(s1, Exit(0))
            && var s2 := Take(s1, Exit(0));
               && Enabled(s2, CloseStopped(0))
               && var s3 := Take(s2, CloseStopped(0));
                  && Enabled(s3, SeeStopped(j))
                  && var s4 := Take(s3, SeeStopped(j));
                     Enabled(s4, MarkStopped(j)) && t == Take(s4, MarkStopped(j))
    ensures StopAt(t, j, Returned(true)) && t.stopped && !t.running && LoopAt(t, 0, Gone)
    ensures t.stopCloses == 1 && t.stoppedCloses == 1
  {
    var s := run[|steps|];
    RunInv(run, steps, |steps|);
    var s1 := Take(s, RequestStop(j));
    StepKeepsInv(s, RequestStop(j));
    var s2 := Take(s1, Exit(0));
    StepKeepsInv(s1, Exit(0));
    var s3 := Take(s2, CloseStopped(0));
    StepKeepsInv(s2, CloseStopped(0));
    var s4 := Take(s3, SeeStopped(j));
    t := Take(s4, MarkStopped(j));
  }

  lemma OneMorePlace(before: set<nat>, after: set<nat>, m: nat)
    requires m !in before && forall n :: n in after && n != m <==> n in before
    ensures |after| == |before| + if m in after then 1 else 0
  {
    assert after == before + if m in after then {m} else {};
  }

  /** A run has failed for each sync that finished with an error. */
  lemma {:induction false} FailedRunsCount(run: seq<State>, steps: seq<Step>, k: nat)
    requires IsRun(run, steps) && k < |run|
    ensures run[k].failedRuns == |set n | 0 <= n < k && steps[n].FinishSync? && steps[n].hasError|
  {
    var places := set n | 0 <= n < k && steps[n].FinishSync? && steps[n].hasError;
    if k == 0 {
      assert places == {};
    } else {
      FailedRunsCount(run, steps, k - 1);
      StepCounts(run[k - 1], steps[k - 1]);
      var before := set n | 0 <= n < k - 1 && steps[n].FinishSync? && steps[n].hasError;
      OneMorePlace(before, places, k - 1);
    }
  }

  /** A run has succeeded for each sync that finished without one. */
  lemma {:induction false} SuccessfulRunsCount(run: seq<State>, steps: seq<Step>, k: nat)
    requires IsRun(run, steps) && k < |run|
    ensures run[k].successfulRuns == |set n | 0 <= n < k && steps[n].FinishSync? && !steps[n].hasError|
  {
    var places := set n | 0 <= n < k && steps[n].FinishSync? && !steps[n].hasError;
    if k == 0 {
      assert places == {};
    } else {
      SuccessfulRunsCount(run, steps, k - 1);
      StepCounts(run[k - 1], steps[k - 1]);
      var before := set n | 0 <= n < k - 1 && steps[n].FinishSync? && !steps[n].hasError;
      OneMorePlace(before, places, k - 1);
    }
  }

  /** A run is counted for each tick that was taken. */
  lemma {:induction false} TotalRunsCount(run: seq<State>, steps: seq<Step>, k: nat)
    requires IsRun(run, steps) && k < |run|
    ensures run[k].totalRuns == |set n | 0 <= n < k && steps[n].Tick?|
  {
    var places := set n | 0 <= n < k && steps[n].Tick?;
    if k == 0 {
      assert places == {};
    } else {
      TotalRunsCount(run, steps, k - 1);
      StepCounts(run[k - 1], steps[k - 1]);
      var before := set n | 0 <= n < k - 1 && steps[n].Tick?;
      OneMorePlace(before, places, k - 1);
    }
  }

  /** No step of a stopped scheduler starts anything. */
  lemma StoppedStep(s: State, step: Step)
    requires Inv(s) && Enabled(s, step) && s.stopped
    ensures Take(s, step).stopped && Take(s, step).totalRuns == s.totalRuns
  {
  }

  lemma {:induction false} StoppedStays(run: seq<State>, steps: seq<Step>, k: nat, n: nat)
    requires IsRun(run, steps) && k <= n < |run| && run[k].stopped
    ensures run[n].stopped && run[n].totalRuns == run[k].totalRuns
  {
    if k < n {
      StoppedStays(run, steps, k, n - 1);
      RunInv(run, steps, n - 1);
      StoppedStep(run[n - 1], steps[n - 1]);
    }
  }

  /** Once stopped, always stopped: nothing runs again and no Start takes effect. */
  lemma StoppedForGood(run: seq<State>, steps: seq<Step>, k: nat, n: nat)
    requires IsRun(run, steps) && k <= n < |run| && run[k].stopped
    ensures run[n].stopped && !run[n].running && run[n].totalRuns == run[k].totalRuns && InFlight(run[n]) == 0
  {
    StoppedStays(run, steps, k, n);
    RunInv(run, steps, n);
    StoppedQuiet(run[n]);
  }

  lemma StoppedQuiet(s: State)
    requires Inv(s) && s.stopped
    ensures !s.running && InFlight(s) == 0
  {
  }

  /** A Stop that returned without an error leaves no sync in progress and none to come. */
  lemma StopIsFinal(run: seq<State>, steps: seq<Step>, k: nat, n: nat, j: nat)
    requires IsRun(run, steps) && k <= n < |run| && StopAt(run[k], j, Returned(true))
    ensures InFlight(run[n]) == 0 && run[n].totalRuns == run[k].totalRuns
    ensures run[n].totalRuns == run[n].successfulRuns + run[n].failedRuns
  {
    RunInv(run, steps, k);
    RunInv(run, steps, n);
    StoppedForGood(run, steps, k, n);
  }
}
