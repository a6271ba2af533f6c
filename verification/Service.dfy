/** Executing a plan on two local stores, and one planned run from end to end (package `service`). */
module Service {
  import opened Domain
  import opened Trees
  import opened Adapter
  import opened PlannerSpec
  import opened Planner
  import opened Execution
  import opened Sync
  import opened Progress
  import opened FileLocks
  import Conflict
  import Ignore
  import Executor
  import LockProtocol
  import TwoWaySync

  datatype Status = Locked | Completed | Cancelled | Failed

  // ----- one action

  /** The callback sees an action go back: a copy moves more bytes than were announced for it, or moves some and then
      fails. */
  ghost predicate Overruns(a: SyncAction, s: Sides, stamp: Stamps) {
    && a.kind == Copy
    && Read(s.From(a.dir), a.path).Some? && Opens(s.To(a.dir), a.path)
    && |Read(s.From(a.dir), a.path).value| > if Execute(a, s, stamp).ok then ActionBytes(a) else 0
  }

  /** From position `n` on the callback was told of one transfer: its start, its progress, and how it ended. */
  ghost predicate Transferred(updates: seq<Update>, n: nat, file: string, total: nat, ok: bool) {
    var last := |updates| - 1;
    && n < last && updates[n].kind == UpdateStart && updates[n].file == updates[last].file == file
    && updates[n].currentTotal == total && updates[last].kind == (if ok then UpdateComplete else UpdateError)
    && OnlyProgress(updates[..last], n + 1, file, total)
  }

  /** The part of a copy after its start has been reported and the content opened. */
  method Transfer(path: string, bytes: Bytes, to: LocalAdapter, reporter: CallbackReporter, now: int)
    returns (ok: bool)
    requires reporter.currentFile == path
    modifies to`tree, reporter`currentBytes, reporter`filesCompleted, reporter`bytesCompleted, reporter`updates
    ensures Outcome(to.tree, ok) == Write(old(to.tree), path, bytes, now)
    ensures reporter.filesCompleted == old(reporter.filesCompleted) + (if ok then 1 else 0)
    ensures reporter.bytesCompleted == old(reporter.bytesCompleted) + (if ok then reporter.currentTotal else 0)
    ensures Passed(old(reporter.updates), reporter.updates, path, reporter.currentTotal, ok)
    ensures old(reporter.Flowing()) && old(reporter.currentBytes) == 0
            && reporter.filesCompleted <= reporter.filesTotal && reporter.bytesCompleted <= reporter.bytesTotal ==>
              && (Steady(reporter.updates) <==>
                    (if Opens(old(to.tree), path) then |bytes| else 0) <= if ok then reporter.currentTotal else 0)
              && (Steady(reporter.updates) ==> reporter.Valid())
  {
    var reader := new ProgressReader(bytes, reporter);
    ok := to.Write(path, reader, now);
    if !ok {
      reporter.Error();
      return false;
    }
    reporter.Complete();
  }

  /** After `begun` the callback was told of bytes of one file and of how its transfer ended. */
  ghost predicate Passed(begun: seq<Update>, updates: seq<Update>, file: string, total: nat, ok: bool) {
    var last := |updates| - 1;
    && |begun| <= last && begun <= updates[..last] && OnlyProgress(updates[..last], |begun|, file, total)
    && updates[last].file == file && updates[last].kind == (if ok then UpdateComplete else UpdateError)
  }

  lemma TransferIsTold(before: seq<Update>, start: Update, updates: seq<Update>, file: string, total: nat, ok: bool)
    requires Passed(before + [start], updates, file, total, ok)
    requires start.kind == UpdateStart && start.file == file && start.currentTotal == total
    ensures before <= updates && Transferred(updates, |before|, file, total, ok)
  {
    assert (before + [start])[|before|] == start == updates[..|updates| - 1][|before|];
    assert before <= before + [start] <= updates;
  }

  /** A copy of `path`, announced as `fileSize` bytes. */
  method CopyFile(path: string, fileSize: nat, from: LocalAdapter, to: LocalAdapter, reporter: CallbackReporter,
                  now: int)
    returns (ok: bool)
    requires from != to
    modifies to`tree, reporter
    ensures var bytes := Read(from.tree, path);
            var o := if bytes.None? then Outcome(old(to.tree), false) else Write(old(to.tree), path, bytes.value, now);
            to.tree == o.tree && ok == o.ok
    ensures reporter.filesTotal == old(reporter.filesTotal) && reporter.bytesTotal == old(reporter.bytesTotal)
    ensures reporter.filesCompleted == old(reporter.filesCompleted) + (if ok then 1 else 0)
    ensures reporter.bytesCompleted == old(reporter.bytesCompleted) + (if ok then fileSize else 0)
    ensures old(reporter.updates) <= reporter.updates
    ensures Transferred(reporter.updates, |old(reporter.updates)|, path, fileSize, ok)
    ensures var moved := if Read(from.tree, path).Some? && Opens(old(to.tree), path)
                         then |Read(from.tree, path).value| else 0;
            old(reporter.Valid()) && reporter.filesCompleted <= reporter.filesTotal
            && reporter.bytesCompleted <= reporter.bytesTotal ==>
              && (Steady(reporter.updates) <==> moved <= if ok then fileSize else 0)
              && (Steady(reporter.updates) ==> reporter.Valid())
  {
    reporter.Start(path, fileSize);
    ghost var start := reporter.updates[|old(reporter.updates)|];
    var bytes := from.Read(path);
    if bytes.None? {
      reporter.Error();
      ok := false;
    } else {
      ok := Transfer(path, bytes.value, to, reporter, now);
    }
    TransferIsTold(old(reporter.updates), start, reporter.updates, path, fileSize, ok);
  }

  /** One action with the adapters its direction selects. */
  method ExecuteAction(action: SyncAction, source: LocalAdapter, target: LocalAdapter, reporter: CallbackReporter,
                       stamp: Stamps)
    returns (ok: bool)
    requires source != target
    modifies source`tree, target`tree, reporter
    ensures Run(Sides(source.tree, target.tree), ok) == Execute(action, old(Sides(source.tree, target.tree)), stamp)
    ensures reporter.filesTotal == old(reporter.filesTotal) && reporter.bytesTotal == old(reporter.bytesTotal)
    ensures var done := if ok && action.kind == Copy then 1 else 0;
            && reporter.filesCompleted == old(reporter.filesCompleted) + done
            && reporter.bytesCompleted == old(reporter.bytesCompleted) + done * ActionBytes(action)
    ensures if action.kind == Copy
            then Transferred(reporter.updates, |old(reporter.updates)|, action.path, ActionBytes(action), ok)
            else reporter.updates == old(reporter.updates)
    ensures old(reporter.updates) <= reporter.updates
    ensures (old(reporter.Valid()) && reporter.filesCompleted <= reporter.filesTotal
             && reporter.bytesCompleted <= reporter.bytesTotal) ==>
              && (Steady(reporter.updates) <==> !Overruns(action, old(Sides(source.tree, target.tree)), stamp))
              && (Steady(reporter.updates) ==> reporter.Valid())
  {
    var from, to := source, target;
    if action.dir == TargetToSource { from, to := target, source; }
    match action.kind {
      case Copy => ok := CopyFile(action.path, ActionBytes(action), from, to, reporter, stamp(action.path));
      case Mkdir => ok := to.Mkdir(action.path);
      case Delete => ok := to.Delete(action.path);
      case Skip => ok := true;
      case Conflict => ok := true;
    }
  }

  // ----- the loop

  /** Running the first `k` actions from `start` ends in `end`. */
  ghost predicate RunsTo(actions: seq<SyncAction>, k: nat, start: Sides, stamp: Stamps, end: Sides, ok: bool)
    requires k <= |actions|
  {
    After(actions, k, start, stamp) == Run(end, ok)
  }

  /** How the loop ends: after `n` successful actions, at the end, at the cancellation, or at the first failure. */
  ghost predicate CutRun(actions: seq<SyncAction>, cancelAt: nat, start: Sides, stamp: Stamps, end: Sides,
                         status: Status, n: nat)
  {
    var k := if cancelAt < |actions| then cancelAt else |actions|;
    && RunsTo(actions, k, start, stamp, end, status != Failed)
    && status != Locked && n <= k && (n == k <==> status != Failed)
    && After(actions, n, start, stamp).ok
    && (status == Completed ==> k == |actions|)
    && (status == Cancelled ==> k == cancelAt < |actions|)
  }

  /** The service's counters are the statistics of the first `n` actions, and the reporter's have advanced
      by as much from `files0` and `bytes0`. */
  ghost predicate Counted(reporter: CallbackReporter, files0: nat, bytes0: nat, actions: seq<SyncAction>, n: nat,
                          files: nat, bytes: nat)
    requires n <= |actions|
    reads reporter
  {
    && files == CountKind(actions[..n], Copy) && bytes == CopyBytes(actions[..n])
    && reporter.filesCompleted == files0 + files && reporter.bytesCompleted == bytes0 + bytes
  }

  /** None of the first `m` actions overran when it had its turn. */
  ghost predicate NoneOverran(actions: seq<SyncAction>, m: nat, start: Sides, stamp: Stamps)
    requires m <= |actions|
  {
    forall i :: 0 <= i < m ==> !Overruns(actions[i], After(actions, i, start, stamp).sides, stamp)
  }

  lemma NoneOverranNext(actions: seq<SyncAction>, m: nat, start: Sides, stamp: Stamps)
    requires m < |actions|
    ensures NoneOverran(actions, m + 1, start, stamp) <==>
            NoneOverran(actions, m, start, stamp) && !Overruns(actions[m], After(actions, m, start, stamp).sides, stamp)
  {
  }

  /** What the callback saw is in order exactly when none of the first `m` actions overran. */
  ghost predicate Accounted(reporter: CallbackReporter, actions: seq<SyncAction>, m: nat, start: Sides, stamp: Stamps)
    requires m <= |actions|
    reads reporter
  {
    Steady(reporter.updates) <==> NoneOverran(actions, m, start, stamp)
  }

  /** With the plan's totals set: in order so far means ready for the next action. */
  ghost predicate InStep(reporter: CallbackReporter, actions: seq<SyncAction>)
    reads reporter
  {
    && reporter.filesTotal == CountKind(actions, Copy) && reporter.bytesTotal == CopyBytes(actions)
    && (Steady(reporter.updates) ==> reporter.Valid())
  }

  /** The body of the loop: one action and its bookkeeping. */
  method ExecuteNext(actions: seq<SyncAction>, i: nat, source: LocalAdapter, target: LocalAdapter,
                     reporter: CallbackReporter, stamp: Stamps, files: nat, bytes: nat, ghost files0: nat,
                     ghost bytes0: nat)
    returns (ok: bool, filesCompleted: nat, bytesCompleted: nat)
    requires source != target && i < |actions| && Counted(reporter, files0, bytes0, actions, i, files, bytes)
    modifies source`tree, target`tree, reporter
    ensures Run(Sides(source.tree, target.tree), ok) == Execute(actions[i], old(Sides(source.tree, target.tree)), stamp)
    ensures Counted(reporter, files0, bytes0, actions, if ok then i + 1 else i, filesCompleted, bytesCompleted)
    ensures reporter.filesTotal == old(reporter.filesTotal) && reporter.bytesTotal == old(reporter.bytesTotal)
    ensures files0 == bytes0 == 0 && old(InStep(reporter, actions)) ==>
              && InStep(reporter, actions)
              && (Steady(reporter.updates) <==>
                    old(Steady(reporter.updates)) && !Overruns(actions[i], old(Sides(source.tree, target.tree)), stamp))
  {
    filesCompleted, bytesCompleted := files, bytes;
    var action := actions[i];
    CountersNext(actions, i);
    ghost var before := reporter.updates;
    ok := ExecuteAction(action, source, target, reporter, stamp);
    ghost var during := reporter.updates;
    if Steady(during) { UnsteadyStays(before, during); }
    if !ok {
      reporter.Error();
    } else if action.kind == Copy {
      filesCompleted, bytesCompleted := filesCompleted + 1, bytesCompleted + ActionBytes(action);
      reporter.OverallProgress(filesCompleted, bytesCompleted);
    }
    if Steady(reporter.updates) { UnsteadyStays(during, reporter.updates); }
  }

  /** The next action of a run. */
  method Advance(actions: seq<SyncAction>, i: nat, source: LocalAdapter, target: LocalAdapter,
                 reporter: CallbackReporter, stamp: Stamps, files: nat, bytes: nat, ghost start: Sides,
                 ghost files0: nat, ghost bytes0: nat, ghost inStep: bool)
    returns (ok: bool, filesCompleted: nat, bytesCompleted: nat)
    requires source != target && i < |actions| && Counted(reporter, files0, bytes0, actions, i, files, bytes)
    requires RunsTo(actions, i, start, stamp, Sides(source.tree, target.tree), true)
    requires inStep ==> files0 == bytes0 == 0
    requires inStep ==> InStep(reporter, actions) && Accounted(reporter, actions, i, start, stamp)
    modifies source`tree, target`tree, reporter
    ensures RunsTo(actions, i + 1, start, stamp, Sides(source.tree, target.tree), ok)
    ensures Counted(reporter, files0, bytes0, actions, if ok then i + 1 else i, filesCompleted, bytesCompleted)
    ensures reporter.filesTotal == old(reporter.filesTotal) && reporter.bytesTotal == old(reporter.bytesTotal)
    ensures inStep ==> InStep(reporter, actions) && Accounted(reporter, actions, i + 1, start, stamp)
  {
    ok, filesCompleted, bytesCompleted :=
      ExecuteNext(actions, i, source, target, reporter, stamp, files, bytes, files0, bytes0);
    NoneOverranNext(actions, i, start, stamp);
  }

  /** The ordered loop. `cancelAt` is the action boundary from which the context is done. The trees end
      exactly as the specification's run cut there, and `n` actions succeeded. The service's counters are the
      statistics of those `n` actions and the reporter's advance with them; a completed run of a plan with its own
      statistics ends on the totals. With a fresh reporter, what the callback saw is in order exactly when no action
      overran, the failed one included. */
  method RunActions(plan: SyncPlan, source: LocalAdapter, target: LocalAdapter, reporter: CallbackReporter,
                    cancelAt: nat, stamp: Stamps)
    returns (status: Status, filesCompleted: nat, bytesCompleted: nat, ghost n: nat)
    requires source != target
    modifies source`tree, target`tree, reporter
    ensures CutRun(plan.actions, cancelAt, old(Sides(source.tree, target.tree)), stamp,
                   Sides(source.tree, target.tree), status, n)
    ensures Counted(reporter, old(reporter.filesCompleted), old(reporter.bytesCompleted), plan.actions, n,
                    filesCompleted, bytesCompleted)
    ensures reporter.filesTotal == plan.stats.filesToCopy && reporter.bytesTotal == plan.stats.bytesToSync
    ensures plan.stats == StatsOf(plan.actions) ==>
              && filesCompleted <= plan.stats.filesToCopy && bytesCompleted <= plan.stats.bytesToSync
              && (status == Completed ==>
                    filesCompleted == plan.stats.filesToCopy && bytesCompleted == plan.stats.bytesToSync)
    ensures plan.stats == StatsOf(plan.actions) && old(reporter.Fresh()) ==>
              Accounted(reporter, plan.actions, if status == Failed then n + 1 else n,
                        old(Sides(source.tree, target.tree)), stamp)
  {
    ghost var start := Sides(source.tree, target.tree);
    ghost var files0, bytes0 := reporter.filesCompleted, reporter.bytesCompleted;
    ghost var inStep := plan.stats == StatsOf(plan.actions) && reporter.Fresh();
    var actions := plan.actions;
    ghost var k := if cancelAt < |actions| then cancelAt else |actions|;
    reporter.SetTotal(plan.stats.filesToCopy, plan.stats.bytesToSync);
    filesCompleted, bytesCompleted, n := 0, 0, 0;
    for i := 0 to |actions|
      invariant n == i <= k
      invariant RunsTo(actions, i, start, stamp, Sides(source.tree, target.tree), true)
      invariant Counted(reporter, files0, bytes0, actions, i, filesCompleted, bytesCompleted)
      invariant reporter.filesTotal == plan.stats.filesToCopy && reporter.bytesTotal == plan.stats.bytesToSync
      invariant inStep ==> InStep(reporter, actions) && Accounted(reporter, actions, i, start, stamp)
    {
      if cancelAt <= i {
        StatsMonotone(actions, i);
        return Cancelled, filesCompleted, bytesCompleted, n;
      }
      var ok;
      ok, filesCompleted, bytesCompleted :=
        Advance(actions, i, source, target, reporter, stamp, filesCompleted, bytesCompleted, start, files0, bytes0,
                inStep);
      if !ok {
        FailureLasts(actions, i + 1, k, start, stamp);
        StatsMonotone(actions, i);
        return Failed, filesCompleted, bytesCompleted, n;
      }
      n := n + 1;
    }
    assert actions[..|actions|] == actions;
    status := Completed;
  }

  lemma CountersNext(actions: seq<SyncAction>, i: nat)
    requires i < |actions|
    ensures var copies := if actions[i].kind == Copy then 1 else 0;
            && CountKind(actions[..i + 1], Copy) == CountKind(actions[..i], Copy) + copies <= CountKind(actions, Copy)
            && CopyBytes(actions[..i + 1]) == CopyBytes(actions[..i]) + copies * ActionBytes(actions[i])
            && CopyBytes(actions[..i + 1]) <= CopyBytes(actions)
  {
    StatsMonotone(actions, i + 1);
    assert actions[..i + 1][..i] == actions[..i];
  }

  /** Nothing runs after a failure. */
  lemma {:induction false} FailureLasts(plan: seq<SyncAction>, i: nat, k: nat, s: Sides, stamp: Stamps)
    requires i <= k <= |plan| && !After(plan, i, s, stamp).ok
    ensures After(plan, k, s, stamp) == After(plan, i, s, stamp)
  {
    if i < k { FailureLasts(plan, i, k - 1, s, stamp); }
  }

  /** The loop under the lock. When the lock cannot be had nothing happens; otherwise the loop runs and the lock file
      is gone afterwards. */
  method ExecuteSync(plan: SyncPlan, source: LocalAdapter, target: LocalAdapter, lock: FileLock, now: int,
                     reporter: CallbackReporter, cancelAt: nat, stamp: Stamps)
    returns (status: Status, filesCompleted: nat, bytesCompleted: nat, ghost n: nat)
    requires source != target && lock.Valid()
    modifies source`tree, target`tree, reporter, lock`info, lock.dir`file, lock.dir`nextInode
    ensures lock.Valid() && lock.Available() == old(lock.Available())
    ensures status == Locked <==> !old(lock.Available())
    ensures status == Locked ==>
              && Sides(source.tree, target.tree) == old(Sides(source.tree, target.tree))
              && lock.dir.file == old(lock.dir.file) && lock.info == old(lock.info)
              && reporter.updates == old(reporter.updates)
    ensures status != Locked ==>
              && CutRun(plan.actions, cancelAt, old(Sides(source.tree, target.tree)), stamp,
                        Sides(source.tree, target.tree), status, n)
              && Counted(reporter, old(reporter.filesCompleted), old(reporter.bytesCompleted), plan.actions, n,
                         filesCompleted, bytesCompleted)
              && lock.dir.file == LockProtocol.Absent && lock.info == None
    ensures status == Completed && plan.stats == StatsOf(plan.actions) ==>
              filesCompleted == plan.stats.filesToCopy && bytesCompleted == plan.stats.bytesToSync
    ensures status != Locked && plan.stats == StatsOf(plan.actions) && old(reporter.Fresh()) ==>
              Accounted(reporter, plan.actions, if status == Failed then n + 1 else n,
                        old(Sides(source.tree, target.tree)), stamp)
  {
    var acquired := lock.Acquire(plan.ruleName, now);
    if acquired != LockProtocol.Succeeded { return Locked, 0, 0, 0; }
    status, filesCompleted, bytesCompleted, n := RunActions(plan, source, target, reporter, cancelAt, stamp);
    var released := lock.Release();
  }

  // ----- which planned copies overrun

  /** A two-way copy from target to source announces the source's size; these are the paths where the target's version
      wins and is the longer one. */
  ghost predicate Undersold(p: string, pol: Policy, s0: Sides, sums: Sums) {
    && pol.mode == TwoWay && !pol.ignored(p) && FilesDiffer(p, s0, sums)
    && Conflict.Winner(pol.strategy, Info(p, s0.src[p], sums.src), Info(p, s0.tgt[p], sums.tgt)) == Some(TargetToSource)
    && |s0.tgt[p].bytes| > |s0.src[p].bytes|
  }

  ghost predicate AnyUndersold(pol: Policy, s0: Sides, sums: Sums) {
    exists p :: Undersold(p, pol, s0, sums)
  }

  /** A planned copy reads more than it announced exactly where the target's longer version wins. */
  lemma AnnouncedBytes(pol: Policy, s0: Sides, sums: Sums, a: SyncAction)
    requires DecideNodes(pol, s0, sums, a.path) == Some(a) && a.kind == Copy
    ensures var from := NodeAt(s0.From(a.dir), a.path);
            && from.Some? && from.value.File?
            && (|from.value.bytes| > ActionBytes(a) <==> Undersold(a.path, pol, s0, sums))
  {
    var p := a.path;
    if pol.mode == TwoWay && FilesDiffer(p, s0, sums) {
      Conflict.ResolveFromPlanner(pol.strategy, p, Info(p, s0.src[p], sums.src), Info(p, s0.tgt[p], sums.tgt));
    }
  }

  /** What a pending copy finds at its turn: the same bytes as when it was planned, and a file above its path exactly
      if there was one. */
  lemma PendingCopy(plan: seq<SyncAction>, i: nat, s0: Sides, stamp: Stamps, ignored: string -> bool)
    requires Sound(s0) && Grounded(plan, s0, ignored) && i < |plan| && plan[i].kind == Copy
    ensures var a, s := plan[i], Applied(plan, i, s0, stamp);
            && Read(s.From(a.dir), a.path) == Read(s0.From(a.dir), a.path)
            && (Opens(s.To(a.dir), a.path) <==> !Refused(a.path) && !FileAbove(s0.To(a.dir), a.path))
  {
    var a, s := plan[i], Applied(plan, i, s0, stamp);
    assert GroundedAction(a, s0, ignored);
    EntriesAreRelative(s0.From(a.dir), a.path);
    PendingUntouched(plan, i, s0, stamp, a.dir);
    PendingUntouched(plan, i, s0, stamp, a.dir.Flip());
    CreateReady(plan, i, s0, stamp, ignored);
    NoTempKept(plan, i, s0, stamp, ignored, a.dir, a.path);
    ReadyWrites(s.To(a.dir), s0.To(a.dir), a.path, [], 0);
  }

  /** In a planned run an action overruns exactly if it is a copy that can succeed of a file that was announced too
      small. */
  lemma OverrunsExactly(plan: seq<SyncAction>, i: nat, pol: Policy, s0: Sides, sums: Sums, stamp: Stamps)
    requires Sound(s0) && Closed(pol.ignored) && Planned(plan, pol, s0, sums)
    requires i < |plan| && After(plan, i, s0, stamp).ok
    ensures Overruns(plan[i], After(plan, i, s0, stamp).sides, stamp) <==>
            plan[i].kind == Copy && Enabled(plan[i], s0, pol.ignored) && Undersold(plan[i].path, pol, s0, sums)
  {
    if plan[i].kind == Copy {
      assert plan[i] in plan;
      PlannedGrounded(plan, pol, s0, sums);
      RunExact(plan, i, s0, stamp, pol.ignored);
      AnnouncedBytes(pol, s0, sums, plan[i]);
      PendingCopy(plan, i, s0, stamp, pol.ignored);
      StepExact(plan, i, s0, stamp, pol.ignored);
    }
  }

  /** What the callback of a planned run sees is in order unless some file was announced too small, and a complete run
      over such a file is out of order. */
  lemma SteadyUnlessUndersold(plan: seq<SyncAction>, m: nat, pol: Policy, s0: Sides, sums: Sums, stamp: Stamps)
    requires Sound(s0) && Closed(pol.ignored) && Planned(plan, pol, s0, sums)
    requires m <= |plan| && forall i :: 0 <= i < m ==> After(plan, i, s0, stamp).ok
    ensures !AnyUndersold(pol, s0, sums) ==> NoneOverran(plan, m, s0, stamp)
    ensures m == |plan| && After(plan, m, s0, stamp).ok ==>
              (NoneOverran(plan, m, s0, stamp) <==> !AnyUndersold(pol, s0, sums))
  {
    forall i | 0 <= i < m
      ensures Overruns(plan[i], After(plan, i, s0, stamp).sides, stamp) ==> Undersold(plan[i].path, pol, s0, sums)
    {
      OverrunsExactly(plan, i, pol, s0, sums, stamp);
    }
    if m == |plan| && After(plan, m, s0, stamp).ok && AnyUndersold(pol, s0, sums) {
      var p :| Undersold(p, pol, s0, sums);
      var i := UndersoldCopy(plan, pol, s0, sums, p);
      PlannedGrounded(plan, pol, s0, sums);
      RunSucceeds(plan, s0, stamp, pol.ignored);
      OverrunsExactly(plan, i, pol, s0, sums, stamp);
    }
  }

  lemma UndersoldCopy(plan: seq<SyncAction>, pol: Policy, s0: Sides, sums: Sums, p: string)
    returns (i: nat)
    requires Planned(plan, pol, s0, sums) && Undersold(p, pol, s0, sums)
    ensures i < |plan| && plan[i].kind == Copy && plan[i].path == p
  {
    Conflict.ResolveFromPlanner(pol.strategy, p, Info(p, s0.src[p], sums.src), Info(p, s0.tgt[p], sums.tgt));
    i := PlannedIndex(plan, pol, s0, sums, p);
  }

  /** The failing case: under keep_newest a target version that is newer and longer than the source's is copied back
      while the source's size is announced, and the callback sees the count go back. */
  lemma ReverseCopyOverruns(b: Bytes, c: Bytes, t: int, u: int, sums: Sums, stamp: Stamps)
    requires |b| < |c| && t < u && (sums.src("f", b) == sums.tgt("f", c) ==> sums.src("f", b) == "")
    ensures var pol := Policy(TwoWay, KeepNewest, _ => false);
            var s0 := Sides(map["f" := File(b, t)], map["f" := File(c, u)]);
            var a := DecideNodes(pol, s0, sums, "f").value;
            && a.kind == Copy && a.dir == TargetToSource && ActionBytes(a) == |b|
            && Execute(a, s0, stamp).ok && Overruns(a, s0, stamp) && AnyUndersold(pol, s0, sums)
  {
    var pol := Policy(TwoWay, KeepNewest, _ => false);
    var s0 := Sides(map["f" := File(b, t)], map["f" := File(c, u)]);
    assert Undersold("f", pol, s0, sums);
  }

  // ----- one rule

  /** What lets every action of a plan succeed. */
  ghost predicate Clear(pol: Policy, s0: Sides, sums: Sums) {
    if pol.mode == TwoWay then TwoWaySync.TwoWayClear(pol, s0, sums) else OneWayClear(pol, s0, sums)
  }

  /** What every run keeps, finished or not: sound trees; one-way, the sending tree; two-way, every version that is
      not the loser of a comparison. */
  ghost predicate Kept(pol: Policy, s0: Sides, s: Sides, sums: Sums) {
    && Sound(s)
    && (pol.mode != TwoWay ==>
          s.From(OneWayDirection(pol.mode)) == s0.From(OneWayDirection(pol.mode)))
    && (pol.mode == TwoWay ==> forall p, e :: TwoWaySync.SafeAt(p, e, s, s0, sums, pol))
  }

  /** What a complete run achieves: one-way a mirror, two-way the union. */
  ghost predicate Achieved(pol: Policy, s0: Sides, s: Sides, sums: Sums, stamp: Stamps) {
    if pol.mode == TwoWay then TwoWaySync.HoldsUnion(s, s0, pol.ignored)
    else Mirrors(s.To(OneWayDirection(pol.mode)), OneWayDirection(pol.mode), s0, sums, pol.ignored, stamp)
  }

  lemma PlannedRun(plan: seq<SyncAction>, pol: Policy, s0: Sides, sums: Sums, stamp: Stamps)
    requires Sound(s0) && Closed(pol.ignored) && Planned(plan, pol, s0, sums)
    ensures var r := After(plan, |plan|, s0, stamp);
            && (r.ok <==> Clear(pol, s0, sums))
            && Kept(pol, s0, r.sides, sums)
            && (r.ok ==> Achieved(pol, s0, r.sides, sums, stamp))
  {
    SoundThroughout(plan, |plan|, pol, s0, sums, stamp);
    if pol.mode == TwoWay {
      TwoWaySync.TwoWaySafe(plan, |plan|, pol, s0, sums, stamp);
      TwoWaySync.TwoWaySucceeds(plan, pol, s0, sums, stamp);
      TwoWaySync.TwoWayUnion(plan, pol, s0, sums, stamp);
    } else {
      OneWayMirror(plan, pol, s0, sums, stamp);
    }
  }

  lemma OkBefore(plan: seq<SyncAction>, i: nat, n: nat, s: Sides, stamp: Stamps)
    requires i <= n <= |plan| && After(plan, n, s, stamp).ok
    ensures After(plan, i, s, stamp).ok
  {
    if !After(plan, i, s, stamp).ok { FailureLasts(plan, i, n, s, stamp); }
  }

  /** The callback's account of a whole planned run. */
  lemma PlannedAccount(plan: seq<SyncAction>, n: nat, status: Status, pol: Policy, s0: Sides, sums: Sums, stamp: Stamps,
                       end: Sides)
    requires Sound(s0) && Closed(pol.ignored) && Planned(plan, pol, s0, sums)
    requires CutRun(plan, |plan|, s0, stamp, end, status, n)
    ensures var m := if status == Failed then n + 1 else n;
            && (!AnyUndersold(pol, s0, sums) ==> NoneOverran(plan, m, s0, stamp))
            && (status == Completed ==> (NoneOverran(plan, m, s0, stamp) <==> !AnyUndersold(pol, s0, sums)))
  {
    var m := if status == Failed then n + 1 else n;
    forall i | 0 <= i < m ensures After(plan, i, s0, stamp).ok {
      OkBefore(plan, i, n, s0, stamp);
    }
    SteadyUnlessUndersold(plan, m, pol, s0, sums, stamp);
  }

  /** The copies and the announced bytes of the plan that was run. */
  ghost predicate Tells(files: nat, bytes: nat, pol: Policy, s0: Sides, sums: Sums) {
    exists plan :: Planned(plan, pol, s0, sums) && files == CountKind(plan, Copy) && bytes == CopyBytes(plan)
  }

  /** Where the run of the one plan for these trees ends. */
  ghost predicate Ends(pol: Policy, s0: Sides, s: Sides, sums: Sums, stamp: Stamps) {
    exists plan :: Planned(plan, pol, s0, sums) && s == After(plan, |plan|, s0, stamp).sides
  }

  /** What is told of a run, and where it ends, leave no choice. */
  lemma EndsUnique(pol: Policy, s0: Sides, s: Sides, t: Sides, sums: Sums, stamp: Stamps)
    requires Ends(pol, s0, s, sums, stamp) && Ends(pol, s0, t, sums, stamp)
    ensures s == t
  {
    var a :| Planned(a, pol, s0, sums) && s == After(a, |a|, s0, stamp).sides;
    var b :| Planned(b, pol, s0, sums) && t == After(b, |b|, s0, stamp).sides;
    PlannedUnique(a, b, pol, s0, sums);
  }

  lemma TellsUnique(files: nat, bytes: nat, otherFiles: nat, otherBytes: nat, pol: Policy, s0: Sides, sums: Sums)
    requires Tells(files, bytes, pol, s0, sums) && Tells(otherFiles, otherBytes, pol, s0, sums)
    ensures files == otherFiles && bytes == otherBytes
  {
    var a :| Planned(a, pol, s0, sums) && files == CountKind(a, Copy) && bytes == CopyBytes(a);
    var b :| Planned(b, pol, s0, sums) && otherFiles == CountKind(b, Copy) && otherBytes == CopyBytes(b);
    PlannedUnique(a, b, pol, s0, sums);
  }

  /** One planned and executed run of a rule between two local stores, from their contents to their contents. */
  method SyncRule(rule: Rule, source: LocalAdapter, target: LocalAdapter, os: Ignore.Platform, lock: FileLock, now: int,
                  reporter: CallbackReporter, stamp: Stamps)
    returns (result: RunResult)
    requires source != target && Sound(Sides(source.tree, target.tree)) && lock.Valid()
    modifies source`tree, target`tree, reporter, lock`info, lock.dir`file, lock.dir`nextInode
    ensures lock.Valid() && lock.Available() == old(lock.Available())
    ensures old(lock.info).None? ==> lock.info.None?
    ensures var s0, s := old(Sides(source.tree, target.tree)), Sides(source.tree, target.tree);
            var pol, sums := PolicyOf(rule, rule.mode, os), Sums(source.sum, target.sum);
            && (result.PlanFailed? <==> Executor.PlanFails(s0, pol.ignored))
            && (result.Synced? <==>
                  !Executor.PlanFails(s0, pol.ignored) && old(lock.Available()) && Clear(pol, s0, sums))
            && Kept(pol, s0, s, sums)
            && (result.Synced? ==>
                  && Achieved(pol, s0, s, sums, stamp) && Tells(result.files, result.bytes, pol, s0, sums)
                  && lock.dir.file == LockProtocol.Absent)
            && (if Executor.PlanFails(s0, pol.ignored) || !old(lock.Available()) then s == s0
                else Ends(pol, s0, s, sums, stamp))
            && (old(reporter.Fresh()) && !AnyUndersold(pol, s0, sums) ==> Steady(reporter.updates))
            && (old(reporter.Fresh()) && AnyUndersold(pol, s0, sums) && result.Synced? ==> !Steady(reporter.updates))
  {
    ghost var s0, pol := Sides(source.tree, target.tree), PolicyOf(rule, rule.mode, os);
    ghost var sums := Sums(source.sum, target.sum);
    Ignore.IgnoreClosed(rule.ignorePatterns, os);
    Unchanged(pol, s0, sums);
    var planned := Executor.Plan(rule, source, target, os);
    if planned.None? { return PlanFailed; }
    var plan := planned.value;
    ghost var actions := plan.actions;
    assert Planned(actions, pol, s0, sums);
    var status, files, bytes;
    ghost var n;
    status, files, bytes, n := ExecuteSync(plan, source, target, lock, now, reporter, |plan.actions|, stamp);
    if status == Locked { return ExecutionFailed; }
    PlannedRun(actions, pol, s0, sums, stamp);
    PlannedAccount(actions, n, status, pol, s0, sums, stamp, Sides(source.tree, target.tree));
    if status != Completed { return ExecutionFailed; }
    return Synced(plan.stats.filesToCopy, plan.stats.bytesToSync);
  }

  lemma Unchanged(pol: Policy, s0: Sides, sums: Sums)
    requires Sound(s0)
    ensures Kept(pol, s0, s0, sums)
  {
  }
}
