/** Planning again from wherever a run stopped. */
module Resume {
  import opened Domain
  import opened Trees
  import opened PlannerSpec
  import opened Execution
  import opened Sync

  /** Where a new plan picks up after `n` completed actions: conflicts and skips at the end of the
      completed part change nothing, so they are reported again. */
  function Restart(plan: seq<SyncAction>, n: nat): (m: nat)
    requires n <= |plan|
    ensures m <= n
    ensures forall i :: m <= i < n ==> !plan[i].Mutates()
    ensures m > 0 ==> plan[m - 1].Mutates()
  {
    if n == 0 || plan[n - 1].Mutates() then n else Restart(plan, n - 1)
  }

  /** After a copy, `Compare` takes the two files for identical: the store happened to give the copy the
      original's time, or both endpoints report one checksum (or none) for the content. */
  predicate Settled(a: SyncAction, s0: Sides, sums: Sums, stamp: Stamps) {
    var from := NodeAt(s0.From(a.dir), a.path);
    a.kind == Copy && from.Some? && from.value.File? ==>
      stamp(a.path) == from.value.modTime || sums.src(a.path, from.value.bytes) == sums.tgt(a.path, from.value.bytes)
  }

  ghost predicate AllSettled(plan: seq<SyncAction>, n: nat, s0: Sides, sums: Sums, stamp: Stamps)
    requires n <= |plan|
  {
    forall i :: 0 <= i < n ==> Settled(plan[i], s0, sums, stamp)
  }

  /** Two present entries of one type ask for nothing exactly when they are not told apart. */
  lemma DecideSameKind(pol: Policy, s: Sides, sums: Sums, p: string)
    requires p in s.src && p in s.tgt && SameKind(s.src[p], s.tgt[p]) && !pol.ignored(p)
    ensures DecideNodes(pol, s, sums, p) == None <==>
            match (s.src[p], s.tgt[p])
            case (File(b, t), File(c, u)) => |b| == |c| && (t == u || sums.src(p, b) == sums.tgt(p, c))
            case _ => true
  {
  }

  /** A path whose action is done asks for nothing more, if its copy settled. */
  lemma DecideDone(plan: seq<SyncAction>, n: nat, i: nat, pol: Policy, s0: Sides, sums: Sums, stamp: Stamps)
    requires Sound(s0) && Closed(pol.ignored) && Planned(plan, pol, s0, sums)
    requires i < n <= |plan| && plan[i].Mutates()
    ensures DecideNodes(pol, Applied(plan, n, s0, stamp), sums, plan[i].path) == None
            <==> Settled(plan[i], s0, sums, stamp)
  {
    var d, p := plan[i].dir, plan[i].path;
    PlannedGrounded(plan, pol, s0, sums);
    assert GroundedAction(plan[i], s0, pol.ignored);
    AppliedTouched(plan, n, s0, stamp, i);
    assert !TouchedBefore(plan, n, d.Flip(), p);
    AppliedUntouched(plan, n, s0, stamp, d.Flip(), p);
    DoneAt(plan[i], pol, s0, Applied(plan, n, s0, stamp), sums, stamp);
  }

  lemma DoneAt(a: SyncAction, pol: Policy, s0: Sides, s: Sides, sums: Sums, stamp: Stamps)
    requires GroundedAction(a, s0, pol.ignored) && a.Mutates()
    requires NodeAt(s.To(a.dir), a.path) == Effect(a, s0, stamp)
    requires NodeAt(s.From(a.dir), a.path) == NodeAt(s0.From(a.dir), a.path)
    ensures DecideNodes(pol, s, sums, a.path) == None <==> Settled(a, s0, sums, stamp)
  {
  }

  /** A path whose action is not done asks for what it asked before. */
  lemma DecidePending(plan: seq<SyncAction>, n: nat, pol: Policy, s0: Sides, sums: Sums, stamp: Stamps, p: string)
    requires n <= |plan|
    requires !TouchedBefore(plan, n, SourceToTarget, p) && !TouchedBefore(plan, n, TargetToSource, p)
    ensures DecideNodes(pol, Applied(plan, n, s0, stamp), sums, p) == DecideNodes(pol, s0, sums, p)
  {
    AppliedUntouched(plan, n, s0, stamp, SourceToTarget, p);
    AppliedUntouched(plan, n, s0, stamp, TargetToSource, p);
  }

  lemma RestPending(plan: seq<SyncAction>, n: nat, pol: Policy, s0: Sides, sums: Sums, stamp: Stamps, j: nat)
    requires Sound(s0) && Closed(pol.ignored) && Planned(plan, pol, s0, sums)
    requires n <= |plan| && Restart(plan, n) <= j < |plan|
    ensures DecideNodes(pol, Applied(plan, n, s0, stamp), sums, plan[j].path) == Some(plan[j])
  {
    PlannedGrounded(plan, pol, s0, sums);
    DecidePending(plan, n, pol, s0, sums, stamp, plan[j].path);
    assert plan[j] in plan;
  }

  lemma PendingInRest(plan: seq<SyncAction>, n: nat, pol: Policy, s0: Sides, sums: Sums, stamp: Stamps, p: string)
    requires Sound(s0) && Closed(pol.ignored) && Planned(plan, pol, s0, sums)
    requires n <= |plan| && AllSettled(plan, n, s0, sums, stamp)
    requires DecideNodes(pol, Applied(plan, n, s0, stamp), sums, p).Some?
    ensures DecideNodes(pol, Applied(plan, n, s0, stamp), sums, p).value in plan[Restart(plan, n)..]
  {
    NotDone(plan, n, pol, s0, sums, stamp, p);
    DecidePending(plan, n, pol, s0, sums, stamp, p);
    UntouchedInRest(plan, n, pol, s0, sums, p);
  }

  lemma NotDone(plan: seq<SyncAction>, n: nat, pol: Policy, s0: Sides, sums: Sums, stamp: Stamps, p: string)
    requires Sound(s0) && Closed(pol.ignored) && Planned(plan, pol, s0, sums)
    requires n <= |plan| && AllSettled(plan, n, s0, sums, stamp)
    requires DecideNodes(pol, Applied(plan, n, s0, stamp), sums, p).Some?
    ensures !TouchedBefore(plan, n, SourceToTarget, p) && !TouchedBefore(plan, n, TargetToSource, p)
  {
    forall i | 0 <= i < n && plan[i].Mutates() ensures plan[i].path != p {
      DecideDone(plan, n, i, pol, s0, sums, stamp);
    }
  }

  lemma UntouchedInRest(plan: seq<SyncAction>, n: nat, pol: Policy, s0: Sides, sums: Sums, p: string)
    requires Planned(plan, pol, s0, sums) && n <= |plan| && DecideNodes(pol, s0, sums, p).Some?
    requires !TouchedBefore(plan, n, SourceToTarget, p) && !TouchedBefore(plan, n, TargetToSource, p)
    ensures DecideNodes(pol, s0, sums, p).value in plan[Restart(plan, n)..]
  {
    var j := PlannedIndex(plan, pol, s0, sums, p);
    InRest(plan, n, j);
  }

  lemma InRest(plan: seq<SyncAction>, n: nat, j: nat)
    requires Sorted(plan) && n <= |plan| && j < |plan|
    requires !TouchedBefore(plan, n, SourceToTarget, plan[j].path)
    requires !TouchedBefore(plan, n, TargetToSource, plan[j].path)
    ensures plan[j] in plan[Restart(plan, n)..]
  {
    var m := Restart(plan, n);
    assert plan[j].Mutates() ==> Touches(plan[j], plan[j].dir, plan[j].path);
    RestartMutates(plan, n, j);
    InSuffix(plan, m, j);
  }

  lemma InSuffix<T>(s: seq<T>, m: nat, j: nat)
    requires m <= |s| && j < |s|
    ensures m <= j ==> s[j] in s[m..]
  {
    if m <= j { assert s[m..][j - m] == s[j]; }
  }

  /** Of the first `n` actions, exactly those before the restart point change a tree. */
  lemma RestartMutates(plan: seq<SyncAction>, n: nat, j: nat)
    requires Sorted(plan) && n <= |plan| && j < |plan|
    ensures j < Restart(plan, n) <==> j < n && plan[j].Mutates()
  {
  }

  lemma RestDecided(plan: seq<SyncAction>, n: nat, pol: Policy, s0: Sides, sums: Sums, stamp: Stamps)
    requires Sound(s0) && Closed(pol.ignored) && Planned(plan, pol, s0, sums) && n <= |plan|
    ensures forall a :: a in plan[Restart(plan, n)..] ==>
                          DecideNodes(pol, Applied(plan, n, s0, stamp), sums, a.path) == Some(a)
  {
    var m := Restart(plan, n);
    forall a | a in plan[m..] ensures DecideNodes(pol, Applied(plan, n, s0, stamp), sums, a.path) == Some(a) {
      var j :| 0 <= j < |plan[m..]| && plan[m..][j] == a;
      RestPending(plan, n, pol, s0, sums, stamp, m + j);
    }
  }

  lemma DecidedInRest(plan: seq<SyncAction>, n: nat, pol: Policy, s0: Sides, sums: Sums, stamp: Stamps)
    requires Sound(s0) && Closed(pol.ignored) && Planned(plan, pol, s0, sums)
    requires n <= |plan| && AllSettled(plan, n, s0, sums, stamp)
    ensures forall p :: DecideNodes(pol, Applied(plan, n, s0, stamp), sums, p).Some? ==>
                          DecideNodes(pol, Applied(plan, n, s0, stamp), sums, p).value in plan[Restart(plan, n)..]
  {
    forall p | DecideNodes(pol, Applied(plan, n, s0, stamp), sums, p).Some?
      ensures DecideNodes(pol, Applied(plan, n, s0, stamp), sums, p).value in plan[Restart(plan, n)..]
    {
      PendingInRest(plan, n, pol, s0, sums, stamp, p);
    }
  }

  lemma SortedSuffix(plan: seq<SyncAction>, m: nat)
    requires Sorted(plan) && m <= |plan|
    ensures Sorted(plan[m..])
  {
  }

  /** The rest of the plan is a plan for the state reached. */
  lemma RestIsPlan(plan: seq<SyncAction>, n: nat, pol: Policy, s0: Sides, sums: Sums, stamp: Stamps)
    requires Sound(s0) && Closed(pol.ignored) && Planned(plan, pol, s0, sums)
    requires n <= |plan| && AllSettled(plan, n, s0, sums, stamp)
    ensures Planned(plan[Restart(plan, n)..], pol, Applied(plan, n, s0, stamp), sums)
  {
    RestDecided(plan, n, pol, s0, sums, stamp);
    DecidedInRest(plan, n, pol, s0, sums, stamp);
    SortedSuffix(plan, Restart(plan, n));
    PlannedIntro(plan[Restart(plan, n)..], pol, Applied(plan, n, s0, stamp), sums);
  }

  /** An executed copy that did not settle is planned again, in some form, and not as part of the rest. */
  lemma UnsettledReplanned(plan: seq<SyncAction>, n: nat, i: nat, again: seq<SyncAction>, pol: Policy, s0: Sides,
                           sums: Sums, stamp: Stamps)
    requires Sound(s0) && Closed(pol.ignored) && Planned(plan, pol, s0, sums)
    requires i < n <= |plan| && !Settled(plan[i], s0, sums, stamp)
    requires Planned(again, pol, Applied(plan, n, s0, stamp), sums)
    ensures again != plan[Restart(plan, n)..]
  {
    DecideDone(plan, n, i, pol, s0, sums, stamp);
    var j := PlannedIndex(again, pol, Applied(plan, n, s0, stamp), sums, plan[i].path);
    PlannedGrounded(plan, pol, s0, sums);
    RestartMutates(plan, n, i);
    OtherPaths(plan, i, Restart(plan, n), j);
  }

  lemma OtherPaths(plan: seq<SyncAction>, i: nat, m: nat, j: nat)
    requires DistinctPaths(plan) && i < m <= |plan|
    ensures j < |plan[m..]| ==> plan[m..][j].path != plan[i].path
  {
  }

  /** Stop a run anywhere, by cancellation or at a failing action, and plan again: the new plan is exactly
      the unfinished rest, followed by the conflicts and skips already reported, if and only if every
      completed copy settled. */
  lemma ReplanExact(plan: seq<SyncAction>, k: nat, again: seq<SyncAction>, pol: Policy, s0: Sides, sums: Sums,
                    stamp: Stamps)
    requires Sound(s0) && Closed(pol.ignored) && Planned(plan, pol, s0, sums) && k <= |plan|
    requires Planned(again, pol, After(plan, k, s0, stamp).sides, sums)
    ensures var n := Reach(plan, k, s0, pol.ignored);
            again == plan[Restart(plan, n)..] <==> AllSettled(plan, n, s0, sums, stamp)
  {
    PlannedGrounded(plan, pol, s0, sums);
    RunExact(plan, k, s0, stamp, pol.ignored);
    var n := Reach(plan, k, s0, pol.ignored);
    if AllSettled(plan, n, s0, sums, stamp) {
      RestIsPlan(plan, n, pol, s0, sums, stamp);
      PlannedUnique(again, plan[Restart(plan, n)..], pol, Applied(plan, n, s0, stamp), sums);
    } else {
      var i :| 0 <= i < n && !Settled(plan[i], s0, sums, stamp);
      UnsettledReplanned(plan, n, i, again, pol, s0, sums, stamp);
    }
  }

  /** One checksum function on both endpoints is enough, whatever times the stores assign. */
  lemma SharedSettles(plan: seq<SyncAction>, n: nat, s0: Sides, sums: Sums, stamp: Stamps)
    requires Shared(sums) && n <= |plan|
    ensures AllSettled(plan, n, s0, sums, stamp)
  {
  }

  /** Passive actions leave the trees as they are. */
  lemma {:induction false} AppliedAtRestart(plan: seq<SyncAction>, n: nat, s0: Sides, stamp: Stamps)
    requires n <= |plan|
    ensures Applied(plan, Restart(plan, n), s0, stamp) == Applied(plan, n, s0, stamp)
  {
    if n > 0 && !plan[n - 1].Mutates() {
      AppliedAtRestart(plan, n - 1, s0, stamp);
    }
  }

  /** A run can be cut in two. */
  lemma {:induction false} AfterSplit(plan: seq<SyncAction>, m: nat, j: nat, s0: Sides, stamp: Stamps)
    requires m + j <= |plan| && After(plan, m, s0, stamp).ok
    ensures After(plan[m..], j, After(plan, m, s0, stamp).sides, stamp) == After(plan, m + j, s0, stamp)
  {
    if j > 0 {
      AfterSplit(plan, m, j - 1, s0, stamp);
      assert plan[m..][j - 1] == plan[m + j - 1];
    }
  }

  /** The rest of a run starts from the state its finished part reached. */
  lemma RestStart(plan: seq<SyncAction>, n: nat, s0: Sides, stamp: Stamps, ignored: string -> bool)
    requires Sound(s0) && Grounded(plan, s0, ignored) && n <= |plan| && EnabledUpTo(plan, n, s0, ignored)
    ensures After(plan, Restart(plan, n), s0, stamp) == Run(Applied(plan, n, s0, stamp), true)
  {
    var m := Restart(plan, n);
    RunExact(plan, m, s0, stamp, ignored);
    ReachAll(plan, m, s0, ignored);
    AppliedAtRestart(plan, n, s0, stamp);
  }

  /** An interrupted run that is planned and run again ends exactly where the uninterrupted run ends,
      in the same trees and with the same success or failure. */
  lemma InterruptedRunResumes(plan: seq<SyncAction>, k: nat, again: seq<SyncAction>, pol: Policy, s0: Sides, sums: Sums,
                              stamp: Stamps)
    requires Sound(s0) && Closed(pol.ignored) && Planned(plan, pol, s0, sums) && k <= |plan|
    requires Planned(again, pol, After(plan, k, s0, stamp).sides, sums)
    requires AllSettled(plan, Reach(plan, k, s0, pol.ignored), s0, sums, stamp)
    ensures After(again, |again|, After(plan, k, s0, stamp).sides, stamp) == After(plan, |plan|, s0, stamp)
  {
    var n := Interrupted(plan, k, again, pol, s0, sums, stamp);
    RestStart(plan, n, s0, stamp, pol.ignored);
    RunRest(plan, again, Restart(plan, n), s0, After(plan, k, s0, stamp).sides, stamp);
  }

  lemma RunRest(plan: seq<SyncAction>, rest: seq<SyncAction>, m: nat, s0: Sides, s: Sides, stamp: Stamps)
    requires m <= |plan| && rest == plan[m..] && After(plan, m, s0, stamp) == Run(s, true)
    ensures After(rest, |rest|, s, stamp) == After(plan, |plan|, s0, stamp)
  {
    AfterSplit(plan, m, |plan| - m, s0, stamp);
  }

  lemma Interrupted(plan: seq<SyncAction>, k: nat, again: seq<SyncAction>, pol: Policy, s0: Sides, sums: Sums,
                    stamp: Stamps)
    returns (n: nat)
    requires Sound(s0) && Closed(pol.ignored) && Planned(plan, pol, s0, sums) && k <= |plan|
    requires Planned(again, pol, After(plan, k, s0, stamp).sides, sums)
    requires AllSettled(plan, Reach(plan, k, s0, pol.ignored), s0, sums, stamp)
    ensures n <= k && EnabledUpTo(plan, n, s0, pol.ignored) && Grounded(plan, s0, pol.ignored)
    ensures again == plan[Restart(plan, n)..] && After(plan, k, s0, stamp).sides == Applied(plan, n, s0, stamp)
  {
    n := Reach(plan, k, s0, pol.ignored);
    ReplanExact(plan, k, again, pol, s0, sums, stamp);
    PlannedGrounded(plan, pol, s0, sums);
    RunExact(plan, k, s0, stamp, pol.ignored);
  }

  /** After any successful run, or any part of one, an executed copy is planned again exactly when the store did not
      keep the original's time and the two endpoints report different checksums for the content. */
  lemma CopyAsksAgain(plan: seq<SyncAction>, k: nat, i: nat, pol: Policy, s0: Sides, sums: Sums, stamp: Stamps)
    requires Sound(s0) && Closed(pol.ignored) && Planned(plan, pol, s0, sums)
    requires i < k <= |plan| && After(plan, k, s0, stamp).ok && plan[i].kind == Copy
    ensures var p, from := plan[i].path, NodeAt(s0.From(plan[i].dir), plan[i].path);
            && from.Some? && from.value.File?
            && (DecideNodes(pol, After(plan, k, s0, stamp).sides, sums, p).Some? <==>
                  stamp(p) != from.value.modTime && sums.src(p, from.value.bytes) != sums.tgt(p, from.value.bytes))
  {
    PlannedGrounded(plan, pol, s0, sums);
    assert GroundedAction(plan[i], s0, pol.ignored);
    RunExact(plan, k, s0, stamp, pol.ignored);
    DecideDone(plan, k, i, pol, s0, sums, stamp);
  }

  /** The smallest case: one file pushed to an endpoint with another checksum, such as MD5 against SHA-256. */
  lemma OneFileAsksAgain(b: Bytes, sums: Sums, stamp: Stamps)
    requires sums.src("f", b) != sums.tgt("f", b) && stamp("f") != 0
    ensures var pol := Policy(OneWayPush, Manual, _ => false);
            var s0 := Sides(map["f" := File(b, 0)], map[]);
            var plan := [DecideNodes(pol, s0, sums, "f").value];
            && After(plan, 1, s0, stamp).ok
            && DecideNodes(pol, After(plan, 1, s0, stamp).sides, sums, "f").Some?
  {
  }
}
