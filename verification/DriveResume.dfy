/** Planning again from wherever a run with Drive on one side stopped. */
module DriveResume {
  import opened Domain
  import opened Trees
  import opened PlannerSpec
  import opened Execution
  import opened Sync
  import opened Resume
  import opened DriveRun

  /** The ignored entries that went with their directories ask for nothing. */
  lemma SameDecision(plan: seq<SyncAction>, n: nat, pol: Policy, s0: Sides, sums: Sums, remote: Direction,
                     stamp: Stamps, p: string)
    requires n <= |plan|
    ensures DecideNodes(pol, DriveApplied(plan, n, s0, remote, stamp, pol.ignored), sums, p) ==
            DecideNodes(pol, Applied(plan, n, s0, stamp), sums, p)
  {
    if !pol.ignored(p) {
      DriveAppliedAt(plan, n, s0, remote, stamp, pol.ignored, SourceToTarget, p);
      DriveAppliedAt(plan, n, s0, remote, stamp, pol.ignored, TargetToSource, p);
    }
  }

  lemma SamePlan(again: seq<SyncAction>, plan: seq<SyncAction>, n: nat, pol: Policy, s0: Sides, sums: Sums,
                 remote: Direction, stamp: Stamps)
    requires n <= |plan| && Planned(again, pol, DriveApplied(plan, n, s0, remote, stamp, pol.ignored), sums)
    ensures Planned(again, pol, Applied(plan, n, s0, stamp), sums)
  {
    var s, t := DriveApplied(plan, n, s0, remote, stamp, pol.ignored), Applied(plan, n, s0, stamp);
    forall p ensures DecideNodes(pol, s, sums, p) == DecideNodes(pol, t, sums, p) {
      SameDecision(plan, n, pol, s0, sums, remote, stamp, p);
    }
    forall a | a in again ensures DecideNodes(pol, t, sums, a.path) == Some(a) {
      assert DecideNodes(pol, s, sums, a.path) == Some(a);
    }
    forall p | DecideNodes(pol, t, sums, p).Some? ensures DecideNodes(pol, t, sums, p).value in again {
      assert DecideNodes(pol, s, sums, p).value in again;
    }
    PlannedIntro(again, pol, t, sums);
  }

  /** Stop a run with Drive on one side anywhere and plan again: the new plan is exactly the unfinished rest, followed
      by the conflicts and skips already reported, if and only if every completed copy settled, whatever ignored
      entries went with the directories removed. */
  lemma DriveReplanExact(plan: seq<SyncAction>, k: nat, again: seq<SyncAction>, pol: Policy, s0: Sides, sums: Sums,
                         remote: Direction, stamp: Stamps)
    requires Sound(s0) && Closed(pol.ignored) && Planned(plan, pol, s0, sums) && k <= |plan|
    requires Planned(again, pol, DriveAfter(plan, k, s0, remote, stamp).sides, sums)
    ensures var n := DriveReach(plan, k, s0, remote, pol.ignored);
            again == plan[Restart(plan, n)..] <==> AllSettled(plan, n, s0, sums, stamp)
  {
    PlannedGrounded(plan, pol, s0, sums);
    var n := DriveRunExact(plan, k, s0, remote, stamp, pol.ignored);
    SamePlan(again, plan, n, pol, s0, sums, remote, stamp);
    if AllSettled(plan, n, s0, sums, stamp) {
      RestIsPlan(plan, n, pol, s0, sums, stamp);
      PlannedUnique(again, plan[Restart(plan, n)..], pol, Applied(plan, n, s0, stamp), sums);
    } else {
      var i :| 0 <= i < n && !Settled(plan[i], s0, sums, stamp);
      UnsettledReplanned(plan, n, i, again, pol, s0, sums, stamp);
    }
  }

  /** Conflicts and skips leave a run where it was. */
  lemma {:induction false} DriveAtRestart(plan: seq<SyncAction>, n: nat, s0: Sides, remote: Direction, stamp: Stamps)
    requires n <= |plan| && DriveAfter(plan, n, s0, remote, stamp).ok
    ensures DriveAfter(plan, Restart(plan, n), s0, remote, stamp) == DriveAfter(plan, n, s0, remote, stamp)
  {
    if n > 0 && !plan[n - 1].Mutates() {
      DriveAtRestart(plan, n - 1, s0, remote, stamp);
    }
  }

  /** A run can be cut in two. */
  lemma {:induction false} DriveRestFollows(plan: seq<SyncAction>, rest: seq<SyncAction>, m: nat, k: nat, s0: Sides,
                                            s: Sides, remote: Direction, stamp: Stamps)
    requires m <= k <= |plan| && rest == plan[m..] && DriveAfter(plan, m, s0, remote, stamp) == Run(s, true)
    ensures DriveAfter(rest, k - m, s, remote, stamp) == DriveAfter(plan, k, s0, remote, stamp)
  {
    if k > m {
      DriveRestFollows(plan, rest, m, k - 1, s0, s, remote, stamp);
      assert rest[k - 1 - m] == plan[k - 1];
    }
  }

  /** An interrupted run with Drive on one side that is planned and run again ends in the same trees with the same
      outcome as the uninterrupted run. */
  lemma DriveInterruptedRunResumes(plan: seq<SyncAction>, k: nat, again: seq<SyncAction>, pol: Policy, s0: Sides,
                                   sums: Sums, remote: Direction, stamp: Stamps)
    requires Sound(s0) && Closed(pol.ignored) && Planned(plan, pol, s0, sums) && k <= |plan|
    requires Planned(again, pol, DriveAfter(plan, k, s0, remote, stamp).sides, sums)
    requires AllSettled(plan, DriveReach(plan, k, s0, remote, pol.ignored), s0, sums, stamp)
    ensures DriveAfter(again, |again|, DriveAfter(plan, k, s0, remote, stamp).sides, remote, stamp) ==
            DriveAfter(plan, |plan|, s0, remote, stamp)
  {
    var m := DriveInterrupted(plan, k, again, pol, s0, sums, remote, stamp);
    DriveRestFollows(plan, again, m, |plan|, s0, DriveAfter(plan, k, s0, remote, stamp).sides, remote, stamp);
  }

  lemma DriveInterrupted(plan: seq<SyncAction>, k: nat, again: seq<SyncAction>, pol: Policy, s0: Sides, sums: Sums,
                         remote: Direction, stamp: Stamps)
    returns (m: nat)
    requires Sound(s0) && Closed(pol.ignored) && Planned(plan, pol, s0, sums) && k <= |plan|
    requires Planned(again, pol, DriveAfter(plan, k, s0, remote, stamp).sides, sums)
    requires AllSettled(plan, DriveReach(plan, k, s0, remote, pol.ignored), s0, sums, stamp)
    ensures m <= |plan| && again == plan[m..]
    ensures DriveAfter(plan, m, s0, remote, stamp) == Run(DriveAfter(plan, k, s0, remote, stamp).sides, true)
  {
    var n := DriveReach(plan, k, s0, remote, pol.ignored);
    DriveReplanExact(plan, k, again, pol, s0, sums, remote, stamp);
    ReachedOnDrive(plan, k, pol, s0, sums, remote, stamp);
    DriveAtRestart(plan, n, s0, remote, stamp);
    m := Restart(plan, n);
  }

  /** Where a run is cut is where its successful actions led. */
  lemma ReachedOnDrive(plan: seq<SyncAction>, k: nat, pol: Policy, s0: Sides, sums: Sums, remote: Direction,
                       stamp: Stamps)
    requires Sound(s0) && Closed(pol.ignored) && Planned(plan, pol, s0, sums) && k <= |plan|
    ensures var n := DriveReach(plan, k, s0, remote, pol.ignored);
            DriveAfter(plan, n, s0, remote, stamp) == Run(DriveAfter(plan, k, s0, remote, stamp).sides, true)
  {
    PlannedGrounded(plan, pol, s0, sums);
    var n := DriveRunExact(plan, k, s0, remote, stamp, pol.ignored);
    var m := DriveRunExact(plan, n, s0, remote, stamp, pol.ignored);
  }
}
