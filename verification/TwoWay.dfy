/** Two-way synchronisation: safety at every step and convergence of a complete run. */
module TwoWaySync {
  import opened Domain
  import opened Trees
  import opened PlannerSpec
  import opened Execution
  import opened Sync
  import opened Resume
  import Conflict

  /** The side written in direction `d` may differ from what it was at `p` only so. */
  ghost predicate SafeAt(p: string, d: Direction, now: Sides, s0: Sides, sums: Sums, pol: Policy) {
    var before, after := NodeAt(s0.To(d), p), NodeAt(now.To(d), p);
    after != before ==>
      && !pol.ignored(p)
      && after.Some? && p in s0.From(d) && SameKind(after.value, s0.From(d)[p])
      && (after.value.File? ==> after.value.bytes == s0.From(d)[p].bytes)
      && (before.Some? ==>
            && before.value.File? && after.value.File? && Differ(p, s0, sums)
            && Conflict.Winner(pol.strategy, Info(p, s0.src[p], sums.src), Info(p, s0.tgt[p], sums.tgt)) == Some(d))
  }

  lemma SafeAtTouched(a: SyncAction, pol: Policy, s0: Sides, now: Sides, sums: Sums, stamp: Stamps)
    requires pol.mode == TwoWay && a.Mutates() && DecideNodes(pol, s0, sums, a.path) == Some(a)
    requires NodeAt(now.To(a.dir), a.path) == Effect(a, s0, stamp)
    ensures SafeAt(a.path, a.dir, now, s0, sums, pol)
  {
  }

  lemma SafeAtEach(plan: seq<SyncAction>, n: nat, pol: Policy, s0: Sides, sums: Sums, stamp: Stamps, p: string,
                   d: Direction)
    requires Sound(s0) && Closed(pol.ignored) && Planned(plan, pol, s0, sums) && pol.mode == TwoWay && n <= |plan|
    ensures SafeAt(p, d, Applied(plan, n, s0, stamp), s0, sums, pol)
  {
    PlannedGrounded(plan, pol, s0, sums);
    if TouchedBefore(plan, n, d, p) {
      var i :| 0 <= i < n && Touches(plan[i], d, p);
      AppliedTouched(plan, n, s0, stamp, i);
      assert DecideNodes(pol, s0, sums, plan[i].path) == Some(plan[i]);
      SafeAtTouched(plan[i], pol, s0, Applied(plan, n, s0, stamp), sums, stamp);
    } else {
      AppliedUntouched(plan, n, s0, stamp, d, p);
    }
  }

  /** After any number of actions, whether the run went on, failed or was cancelled: no path has vanished
      from either side, ignored paths are as they were, every new path is a copy of the other side's, and
      a file's bytes changed only where `Compare` told the versions apart, to the strategy's winner. */
  lemma TwoWaySafe(plan: seq<SyncAction>, k: nat, pol: Policy, s0: Sides, sums: Sums, stamp: Stamps)
    requires Sound(s0) && Closed(pol.ignored) && Planned(plan, pol, s0, sums) && pol.mode == TwoWay && k <= |plan|
    ensures forall p, d :: SafeAt(p, d, After(plan, k, s0, stamp).sides, s0, sums, pol)
  {
    PlannedGrounded(plan, pol, s0, sums);
    RunExact(plan, k, s0, stamp, pol.ignored);
    var n := Reach(plan, k, s0, pol.ignored);
    forall p, d ensures SafeAt(p, d, After(plan, k, s0, stamp).sides, s0, sums, pol) {
      SafeAtEach(plan, n, pol, s0, sums, stamp, p, d);
    }
  }

  /** What lets every action of a two-way plan succeed: neither side has a file where the other needs a directory
      above something to copy, and no path to be changed is refused. */
  ghost predicate TwoWayClear(pol: Policy, s0: Sides, sums: Sums) {
    && !Blocked(s0.src, s0.tgt, pol.ignored) && !Blocked(s0.tgt, s0.src, pol.ignored)
    && !Denied(pol, s0, sums)
  }

  /** A two-way run on two local stores succeeds exactly when nothing blocks or denies it. */
  lemma TwoWaySucceeds(plan: seq<SyncAction>, pol: Policy, s0: Sides, sums: Sums, stamp: Stamps)
    requires Sound(s0) && Closed(pol.ignored) && Planned(plan, pol, s0, sums) && pol.mode == TwoWay
    ensures After(plan, |plan|, s0, stamp).ok <==> TwoWayClear(pol, s0, sums)
  {
    PlannedGrounded(plan, pol, s0, sums);
    RunSucceeds(plan, s0, stamp, pol.ignored);
    NothingDenied(plan, pol, s0, sums);
    if !EnabledUpTo(plan, |plan|, s0, pol.ignored) {
      var i := DisabledAction(plan, s0, pol.ignored);
      DisabledIsBlocked(plan, pol, s0, sums, i);
    } else {
      EnabledIsClear(plan, pol, s0, sums, SourceToTarget);
      EnabledIsClear(plan, pol, s0, sums, TargetToSource);
    }
  }

  lemma DisabledAction(plan: seq<SyncAction>, s0: Sides, ignored: string -> bool) returns (i: nat)
    requires !EnabledUpTo(plan, |plan|, s0, ignored)
    ensures i < |plan| && !Enabled(plan[i], s0, ignored)
  {
    i :| 0 <= i < |plan| && !Enabled(plan[i], s0, ignored);
  }

  lemma DisabledIsBlocked(plan: seq<SyncAction>, pol: Policy, s0: Sides, sums: Sums, i: nat)
    requires Planned(plan, pol, s0, sums) && pol.mode == TwoWay
    requires i < |plan| && !Enabled(plan[i], s0, pol.ignored)
    ensures || Blocked(s0.src, s0.tgt, pol.ignored) || Blocked(s0.tgt, s0.src, pol.ignored)
            || (plan[i].Mutates() && Refused(plan[i].path))
  {
  }

  lemma EnabledIsClear(plan: seq<SyncAction>, pol: Policy, s0: Sides, sums: Sums, d: Direction)
    requires Sound(s0) && Planned(plan, pol, s0, sums) && pol.mode == TwoWay
    requires EnabledUpTo(plan, |plan|, s0, pol.ignored)
    ensures !Blocked(s0.From(d), s0.To(d), pol.ignored)
  {
    forall p | p in s0.From(d) && !pol.ignored(p) ensures !FileAbove(s0.To(d), p) {
      if p !in s0.To(d) {
        var i := PlannedIndex(plan, pol, s0, sums, p);
        assert Enabled(plan[i], s0, pol.ignored);
      }
    }
  }

  lemma UnionAt(plan: seq<SyncAction>, pol: Policy, s0: Sides, sums: Sums, stamp: Stamps, p: string, d: Direction)
    requires Sound(s0) && Closed(pol.ignored) && Planned(plan, pol, s0, sums) && pol.mode == TwoWay
    requires !pol.ignored(p)
    ensures p in Applied(plan, |plan|, s0, stamp).To(d) <==> p in s0.src || p in s0.tgt
  {
    SafeAtEach(plan, |plan|, pol, s0, sums, stamp, p, d);
    if p !in s0.To(d) && p in s0.From(d) {
      PlannedGrounded(plan, pol, s0, sums);
      var i := PlannedIndex(plan, pol, s0, sums, p);
      AppliedTouched(plan, |plan|, s0, stamp, i);
    }
  }

  /** Both sides have every path that either had, the ignored ones aside. */
  ghost predicate HoldsUnion(s: Sides, s0: Sides, ignored: string -> bool) {
    forall p :: !ignored(p) ==>
      (p in s.src <==> p in s0.src || p in s0.tgt) && (p in s.tgt <==> p in s0.src || p in s0.tgt)
  }

  lemma AppliedUnion(plan: seq<SyncAction>, pol: Policy, s0: Sides, sums: Sums, stamp: Stamps)
    requires Sound(s0) && Closed(pol.ignored) && Planned(plan, pol, s0, sums) && pol.mode == TwoWay
    ensures HoldsUnion(Applied(plan, |plan|, s0, stamp), s0, pol.ignored)
  {
    var s := Applied(plan, |plan|, s0, stamp);
    forall p | !pol.ignored(p)
      ensures (p in s.src <==> p in s0.src || p in s0.tgt) && (p in s.tgt <==> p in s0.src || p in s0.tgt)
    {
      UnionAt(plan, pol, s0, sums, stamp, p, SourceToTarget);
      UnionAt(plan, pol, s0, sums, stamp, p, TargetToSource);
    }
  }

  lemma CompleteRun(plan: seq<SyncAction>, pol: Policy, s0: Sides, sums: Sums, stamp: Stamps)
    requires Sound(s0) && Closed(pol.ignored) && Planned(plan, pol, s0, sums)
    requires After(plan, |plan|, s0, stamp).ok
    ensures After(plan, |plan|, s0, stamp).sides == Applied(plan, |plan|, s0, stamp)
    ensures Reach(plan, |plan|, s0, pol.ignored) == |plan| && Sorted(plan)
  {
    PlannedGrounded(plan, pol, s0, sums);
    RunExact(plan, |plan|, s0, stamp, pol.ignored);
  }

  /** A complete two-way run gives both sides the union of the paths. */
  lemma TwoWayUnion(plan: seq<SyncAction>, pol: Policy, s0: Sides, sums: Sums, stamp: Stamps)
    requires Sound(s0) && Closed(pol.ignored) && Planned(plan, pol, s0, sums) && pol.mode == TwoWay
    ensures After(plan, |plan|, s0, stamp).ok ==> HoldsUnion(After(plan, |plan|, s0, stamp).sides, s0, pol.ignored)
  {
    if After(plan, |plan|, s0, stamp).ok {
      CompleteRun(plan, pol, s0, sums, stamp);
      AppliedUnion(plan, pol, s0, sums, stamp);
    }
  }

  /** Which version of a file is on the two sides after a complete two-way run, where the two versions were told apart:
      under keep_remote the source's; under keep_newest the later one, unless the checksums agree or the times do; each
      side's own under every other strategy. */
  lemma WinnerIsOnBothSides(plan: seq<SyncAction>, pol: Policy, s0: Sides, sums: Sums, stamp: Stamps, p: string)
    requires Sound(s0) && Closed(pol.ignored) && Planned(plan, pol, s0, sums) && pol.mode == TwoWay
    requires After(plan, |plan|, s0, stamp).ok && !pol.ignored(p)
    requires p in s0.src && p in s0.tgt && s0.src[p].File? && s0.tgt[p].File?
    requires var s, t := s0.src[p], s0.tgt[p];
             || |s.bytes| != |t.bytes|
             || (s.modTime != t.modTime && sums.src(p, s.bytes) != sums.tgt(p, t.bytes))
    ensures var r := After(plan, |plan|, s0, stamp).sides;
            var s, t := s0.src[p], s0.tgt[p];
            var agree := sums.src(p, s.bytes) == sums.tgt(p, t.bytes) != "";
            && p in r.src && p in r.tgt && r.src[p].File? && r.tgt[p].File?
            && if pol.strategy == KeepRemote || (pol.strategy == KeepNewest && !agree && s.modTime > t.modTime)
               then r.src[p] == s && r.tgt[p].bytes == s.bytes
               else if pol.strategy == KeepNewest && !agree && s.modTime < t.modTime
               then r.tgt[p] == t && r.src[p].bytes == t.bytes
               else r.src[p] == s && r.tgt[p] == t
  {
    var a := WinnerDecided(pol, s0, sums, p);
    OwnActionOnly(plan, pol, s0, sums, stamp, p, a, SourceToTarget);
    OwnActionOnly(plan, pol, s0, sums, stamp, p, a, TargetToSource);
  }

  lemma WinnerDecided(pol: Policy, s0: Sides, sums: Sums, p: string) returns (a: SyncAction)
    requires pol.mode == TwoWay && !pol.ignored(p)
    requires p in s0.src && p in s0.tgt && s0.src[p].File? && s0.tgt[p].File?
    requires var s, t := s0.src[p], s0.tgt[p];
             || |s.bytes| != |t.bytes|
             || (s.modTime != t.modTime && sums.src(p, s.bytes) != sums.tgt(p, t.bytes))
    ensures DecideNodes(pol, s0, sums, p) == Some(a) && a.path == p
    ensures var s, t := s0.src[p], s0.tgt[p];
            var agree := sums.src(p, s.bytes) == sums.tgt(p, t.bytes) != "";
            if pol.strategy == KeepRemote || (pol.strategy == KeepNewest && !agree && s.modTime > t.modTime)
            then a.kind == Copy && a.dir == SourceToTarget
            else if pol.strategy == KeepNewest && !agree && s.modTime < t.modTime
            then a.kind == Copy && a.dir == TargetToSource
            else !a.Mutates()
  {
    a := DecideNodes(pol, s0, sums, p).value;
  }

  /** A path ends as its own action put it, or as it was. */
  lemma OwnActionOnly(plan: seq<SyncAction>, pol: Policy, s0: Sides, sums: Sums, stamp: Stamps, p: string,
                      a: SyncAction, d: Direction)
    requires Sound(s0) && Closed(pol.ignored) && Planned(plan, pol, s0, sums)
    requires After(plan, |plan|, s0, stamp).ok && DecideNodes(pol, s0, sums, p) == Some(a) && a.path == p
    ensures NodeAt(After(plan, |plan|, s0, stamp).sides.To(d), p) ==
            if Touches(a, d, p) then Effect(a, s0, stamp) else NodeAt(s0.To(d), p)
  {
    CompleteRun(plan, pol, s0, sums, stamp);
    PlannedGrounded(plan, pol, s0, sums);
    var i := PlannedIndex(plan, pol, s0, sums, p);
    if Touches(a, d, p) {
      AppliedTouched(plan, |plan|, s0, stamp, i);
    } else {
      assert !TouchedBefore(plan, |plan|, d, p);
      AppliedUntouched(plan, |plan|, s0, stamp, d, p);
    }
  }

  /** `again` is what `plan` had left to report: its conflicts and skips, all of them and nothing else. */
  ghost predicate OnlyReports(again: seq<SyncAction>, plan: seq<SyncAction>) {
    && (forall a :: a in again ==> a in plan && !a.Mutates())
    && (forall a :: a in plan && !a.Mutates() ==> a in again)
  }

  /** One complete run reaches a fixpoint: both sides hold the union of the paths, and planning again
      yields no copy, directory or deletion, only the conflicts and skips that were already reported,
      whatever the strategy and whatever times the stores assign. */
  lemma TwoWayFixpoint(plan: seq<SyncAction>, again: seq<SyncAction>, pol: Policy, s0: Sides, sums: Sums, stamp: Stamps)
    requires Sound(s0) && Closed(pol.ignored) && Planned(plan, pol, s0, sums) && pol.mode == TwoWay
    requires Shared(sums) && After(plan, |plan|, s0, stamp).ok
    requires Planned(again, pol, After(plan, |plan|, s0, stamp).sides, sums)
    ensures HoldsUnion(After(plan, |plan|, s0, stamp).sides, s0, pol.ignored)
    ensures OnlyReports(again, plan)
  {
    TwoWayUnion(plan, pol, s0, sums, stamp);
    CompleteRun(plan, pol, s0, sums, stamp);
    WholeRunRest(plan, again, pol, s0, sums, stamp);
    RestIsPassive(plan, again);
  }

  lemma WholeRunRest(plan: seq<SyncAction>, again: seq<SyncAction>, pol: Policy, s0: Sides, sums: Sums, stamp: Stamps)
    requires Sound(s0) && Closed(pol.ignored) && Planned(plan, pol, s0, sums)
    requires Shared(sums) && After(plan, |plan|, s0, stamp).ok
    requires Planned(again, pol, After(plan, |plan|, s0, stamp).sides, sums)
    ensures again == plan[Restart(plan, |plan|)..]
  {
    CompleteRun(plan, pol, s0, sums, stamp);
    SharedSettles(plan, |plan|, s0, sums, stamp);
    ReplanExact(plan, |plan|, again, pol, s0, sums, stamp);
  }

  lemma RestIsPassive(plan: seq<SyncAction>, rest: seq<SyncAction>)
    requires Sorted(plan) && rest == plan[Restart(plan, |plan|)..]
    ensures OnlyReports(rest, plan)
  {
  }
}
