/** A planned run with Google Drive on one side: what changes when deletions take whole subtrees, and why the adapter's
    cache stays right throughout. */
module DriveRun {
  import opened Domain
  import opened Paths
  import opened Trees
  import opened PlannerSpec
  import opened Execution
  import opened Sync
  import opened DriveItems
  import opened DriveTree
  import opened Drive
  import opened Adapter
  import opened Progress

  // ----- on trees

  /** One action when the side that `remote` points to is on Drive. For a directory to be made below a file this tells
      of failure, which is what happens if the adapter knows the file's ID. If not, a second item of the file's name
      appears and the drive is no longer a tree of paths. */
  ghost function DriveExecute(a: SyncAction, s: Sides, remote: Direction, stamp: Stamps): Run {
    if a.kind == Delete && a.dir == remote then
      if Refused(a.path) || a.path !in s.To(remote) then Run(s, false)
      else Run(s.WithTo(remote, Sweep(s.To(remote), a.path)), true)
    else Execute(a, s, stamp)
  }

  ghost function DriveAfter(plan: seq<SyncAction>, k: nat, s: Sides, remote: Direction, stamp: Stamps): Run
    requires k <= |plan|
  {
    if k == 0 then Run(s, true)
    else
      var r := DriveAfter(plan, k - 1, s, remote, stamp);
      if r.ok then DriveExecute(plan[k - 1], r.sides, remote, stamp) else r
  }

  /** The adapters do not refuse the path, no file stands where a directory is needed and, on the local side, no ignored
      entry keeps a directory from being removed. */
  ghost predicate DriveEnabled(a: SyncAction, s0: Sides, remote: Direction, ignored: string -> bool) {
    if a.kind == Delete && a.dir == remote then !Refused(a.path) else Enabled(a, s0, ignored)
  }

  /** One of the first `k` actions removed something above `p` from the Drive side. */
  ghost predicate SweptBefore(plan: seq<SyncAction>, k: nat, remote: Direction, p: string)
    requires k <= |plan|
  {
    exists i :: 0 <= i < k && plan[i].kind == Delete && plan[i].dir == remote && Below(p, plan[i].path)
  }

  /** The effects of the first `k` actions, and on the Drive side the ignored entries below removed directories gone
      with them. */
  ghost function DriveApplied(plan: seq<SyncAction>, k: nat, s0: Sides, remote: Direction, stamp: Stamps,
                              ignored: string -> bool): Sides
    requires k <= |plan|
  {
    var s := Applied(plan, k, s0, stamp);
    s.WithTo(remote, map p | p in s.To(remote) && !(ignored(p) && SweptBefore(plan, k, remote, p)) :: s.To(remote)[p])
  }

  /** Only ignored paths on the Drive side can differ from the plain account. */
  lemma DriveAppliedAt(plan: seq<SyncAction>, k: nat, s0: Sides, remote: Direction, stamp: Stamps,
                       ignored: string -> bool, d: Direction, p: string)
    requires k <= |plan|
    ensures NodeAt(DriveApplied(plan, k, s0, remote, stamp, ignored).To(d), p) ==
            if d == remote && ignored(p) && SweptBefore(plan, k, remote, p) then None
            else NodeAt(Applied(plan, k, s0, stamp).To(d), p)
  {
  }

  lemma SameSides(s: Sides, t: Sides, remote: Direction)
    requires forall d, p :: NodeAt(s.To(d), p) == NodeAt(t.To(d), p)
    ensures s == t
  {
    SameNodes(s.To(remote), t.To(remote));
    SameNodes(s.To(remote.Flip()), t.To(remote.Flip()));
  }

  /** Step `k` does what the original trees decided. */
  ghost predicate DriveStepIs(plan: seq<SyncAction>, k: nat, s0: Sides, remote: Direction, stamp: Stamps,
                              ignored: string -> bool)
    requires k < |plan|
  {
    var s := DriveApplied(plan, k, s0, remote, stamp, ignored);
    DriveExecute(plan[k], s, remote, stamp) ==
    if DriveEnabled(plan[k], s0, remote, ignored)
    then Run(DriveApplied(plan, k + 1, s0, remote, stamp, ignored), true) else Run(s, false)
  }

  /** The sides after an action that takes no subtree. */
  ghost function PutEffect(a: SyncAction, s: Sides, s0: Sides, stamp: Stamps): Sides {
    if a.Mutates() then s.WithTo(a.dir, Put(s.To(a.dir), a.path, Effect(a, s0, stamp))) else s
  }

  lemma PutEffectAt(a: SyncAction, s: Sides, s0: Sides, stamp: Stamps, d: Direction, p: string)
    ensures NodeAt(PutEffect(a, s, s0, stamp).To(d), p) ==
            if Touches(a, d, p) then Effect(a, s0, stamp) else NodeAt(s.To(d), p)
  {
  }

  lemma DriveNextAt(plan: seq<SyncAction>, k: nat, s0: Sides, remote: Direction, stamp: Stamps, ignored: string -> bool,
                    d: Direction, p: string)
    requires k < |plan| && !(plan[k].kind == Delete && plan[k].dir == remote) && !ignored(plan[k].path)
    ensures NodeAt(DriveApplied(plan, k + 1, s0, remote, stamp, ignored).To(d), p) ==
            NodeAt(PutEffect(plan[k], DriveApplied(plan, k, s0, remote, stamp, ignored), s0, stamp).To(d), p)
  {
    assert SweptBefore(plan, k + 1, remote, p) <==> SweptBefore(plan, k, remote, p);
    DriveAppliedAt(plan, k, s0, remote, stamp, ignored, d, p);
    DriveAppliedAt(plan, k + 1, s0, remote, stamp, ignored, d, p);
    PutEffectAt(plan[k], DriveApplied(plan, k, s0, remote, stamp, ignored), s0, stamp, d, p);
    PutEffectAt(plan[k], Applied(plan, k, s0, stamp), s0, stamp, d, p);
    assert Applied(plan, k + 1, s0, stamp) == PutEffect(plan[k], Applied(plan, k, s0, stamp), s0, stamp);
  }

  /** An action that takes no subtree puts its own effect and nothing else. */
  lemma DriveNext(plan: seq<SyncAction>, k: nat, s0: Sides, remote: Direction, stamp: Stamps, ignored: string -> bool)
    requires k < |plan| && !(plan[k].kind == Delete && plan[k].dir == remote) && !ignored(plan[k].path)
    ensures DriveApplied(plan, k + 1, s0, remote, stamp, ignored) ==
            PutEffect(plan[k], DriveApplied(plan, k, s0, remote, stamp, ignored), s0, stamp)
  {
    var next := DriveApplied(plan, k + 1, s0, remote, stamp, ignored);
    var put := PutEffect(plan[k], DriveApplied(plan, k, s0, remote, stamp, ignored), s0, stamp);
    forall d, p ensures NodeAt(next.To(d), p) == NodeAt(put.To(d), p) {
      DriveNextAt(plan, k, s0, remote, stamp, ignored, d, p);
    }
    SameSides(next, put, remote);
  }

  lemma DriveReady(plan: seq<SyncAction>, k: nat, s0: Sides, remote: Direction, stamp: Stamps, ignored: string -> bool)
    requires k < |plan| && Sound(s0) && Grounded(plan, s0, ignored) && Closed(ignored) && Creates(plan[k])
    ensures LevelsReady(DriveApplied(plan, k, s0, remote, stamp, ignored).To(plan[k].dir), s0.To(plan[k].dir),
                        plan[k].path)
  {
    var d, p := plan[k].dir, plan[k].path;
    assert GroundedAction(plan[k], s0, ignored);
    CreateReady(plan, k, s0, stamp, ignored);
    forall q | Below(p, q)
      ensures NodeAt(DriveApplied(plan, k, s0, remote, stamp, ignored).To(d), q) ==
              NodeAt(Applied(plan, k, s0, stamp).To(d), q)
    {
      assert !ignored(q);
      DriveAppliedAt(plan, k, s0, remote, stamp, ignored, d, q);
    }
  }

  /** At a pending action's path both sides still show what the plan saw, and no temporary name is taken. */
  lemma DrivePending(plan: seq<SyncAction>, k: nat, s0: Sides, remote: Direction, stamp: Stamps,
                     ignored: string -> bool, d: Direction)
    requires k < |plan| && Sound(s0) && Grounded(plan, s0, ignored)
    ensures var t := DriveApplied(plan, k, s0, remote, stamp, ignored).To(d);
            NodeAt(t, plan[k].path) == NodeAt(s0.To(d), plan[k].path) && plan[k].path + TEMP_SUFFIX !in t
  {
    assert GroundedAction(plan[k], s0, ignored);
    PendingUntouched(plan, k, s0, stamp, d);
    NoTempKept(plan, k, s0, stamp, ignored, d, plan[k].path);
    DriveAppliedAt(plan, k, s0, remote, stamp, ignored, d, plan[k].path);
    DriveAppliedAt(plan, k, s0, remote, stamp, ignored, d, plan[k].path + TEMP_SUFFIX);
  }

  lemma DriveCreateStep(plan: seq<SyncAction>, k: nat, s0: Sides, remote: Direction, stamp: Stamps,
                        ignored: string -> bool)
    requires k < |plan| && Sound(s0) && Grounded(plan, s0, ignored) && Closed(ignored) && Creates(plan[k])
    ensures DriveStepIs(plan, k, s0, remote, stamp, ignored)
  {
    var a, s := plan[k], DriveApplied(plan, k, s0, remote, stamp, ignored);
    var d, p := a.dir, a.path;
    assert GroundedAction(a, s0, ignored);
    EntriesAreRelative(s0.From(d), p);
    DrivePending(plan, k, s0, remote, stamp, ignored, d);
    DrivePending(plan, k, s0, remote, stamp, ignored, d.Flip());
    DriveReady(plan, k, s0, remote, stamp, ignored);
    DriveNext(plan, k, s0, remote, stamp, ignored);
    if a.kind == Mkdir {
      ReadyMakes(s.To(d), s0.To(d), p);
    } else {
      ReadyWrites(s.To(d), s0.To(d), p, s0.From(d)[p].bytes, stamp(p));
    }
  }

  /** A deletion on the local side is as on two local stores. */
  lemma DriveLocalDelete(plan: seq<SyncAction>, k: nat, s0: Sides, remote: Direction, stamp: Stamps,
                         ignored: string -> bool)
    requires k < |plan| && Sound(s0) && Grounded(plan, s0, ignored)
    requires plan[k].kind == Delete && plan[k].dir != remote
    ensures DriveStepIs(plan, k, s0, remote, stamp, ignored)
  {
    var a, s := plan[k], DriveApplied(plan, k, s0, remote, stamp, ignored);
    assert GroundedAction(a, s0, ignored);
    DriveNext(plan, k, s0, remote, stamp, ignored);
    DeleteStep(plan, k, s0, stamp, ignored);
    assert s.To(a.dir) == Applied(plan, k, s0, stamp).To(a.dir);
  }

  /** A deletion on Drive takes its path and, since everything else below it has gone before, the ignored entries below
      it. */
  lemma DriveSweepStep(plan: seq<SyncAction>, k: nat, s0: Sides, remote: Direction, stamp: Stamps,
                       ignored: string -> bool)
    requires k < |plan| && Sound(s0) && Grounded(plan, s0, ignored)
    requires plan[k].kind == Delete && plan[k].dir == remote
    ensures DriveStepIs(plan, k, s0, remote, stamp, ignored)
  {
    var a, s := plan[k], DriveApplied(plan, k, s0, remote, stamp, ignored);
    var next := DriveApplied(plan, k + 1, s0, remote, stamp, ignored);
    var swept := s.WithTo(remote, Sweep(s.To(remote), a.path));
    assert GroundedAction(a, s0, ignored);
    DrivePending(plan, k, s0, remote, stamp, ignored, remote);
    forall d, p ensures NodeAt(next.To(d), p) == NodeAt(swept.To(d), p) {
      SweepAt(plan, k, s0, remote, stamp, ignored, d, p);
    }
    SameSides(next, swept, remote);
  }

  lemma SweepAt(plan: seq<SyncAction>, k: nat, s0: Sides, remote: Direction, stamp: Stamps, ignored: string -> bool,
                d: Direction, p: string)
    requires k < |plan| && Sound(s0) && Grounded(plan, s0, ignored)
    requires plan[k].kind == Delete && plan[k].dir == remote
    ensures var s := DriveApplied(plan, k, s0, remote, stamp, ignored);
            NodeAt(DriveApplied(plan, k + 1, s0, remote, stamp, ignored).To(d), p) ==
            if d == remote && (p == plan[k].path || Below(p, plan[k].path)) then None else NodeAt(s.To(d), p)
  {
    assert GroundedAction(plan[k], s0, ignored);
    DriveAppliedAt(plan, k, s0, remote, stamp, ignored, d, p);
    DriveAppliedAt(plan, k + 1, s0, remote, stamp, ignored, d, p);
    assert SweptBefore(plan, k + 1, remote, p) <==> SweptBefore(plan, k, remote, p) || Below(p, plan[k].path);
    if d == remote && Below(p, plan[k].path) {
      BelowDeleted(plan, k, s0, stamp, ignored, p);
    }
  }

  /** Every step either has exactly its own effect, subtrees on Drive included, or fails and leaves both trees alone. */
  lemma DriveStepExact(plan: seq<SyncAction>, k: nat, s0: Sides, remote: Direction, stamp: Stamps,
                       ignored: string -> bool)
    requires k < |plan| && Sound(s0) && Grounded(plan, s0, ignored) && Closed(ignored)
    ensures DriveStepIs(plan, k, s0, remote, stamp, ignored)
  {
    assert GroundedAction(plan[k], s0, ignored);
    if Creates(plan[k]) {
      DriveCreateStep(plan, k, s0, remote, stamp, ignored);
    } else if plan[k].kind == Delete && plan[k].dir == remote {
      DriveSweepStep(plan, k, s0, remote, stamp, ignored);
    } else if plan[k].kind == Delete {
      DriveLocalDelete(plan, k, s0, remote, stamp, ignored);
    } else {
      DriveNext(plan, k, s0, remote, stamp, ignored);
    }
  }

  ghost predicate DriveEnabledUpTo(plan: seq<SyncAction>, k: nat, s0: Sides, remote: Direction, ignored: string -> bool)
    requires k <= |plan|
  {
    forall i :: 0 <= i < k ==> DriveEnabled(plan[i], s0, remote, ignored)
  }

  lemma DriveStart(plan: seq<SyncAction>, s0: Sides, remote: Direction, stamp: Stamps, ignored: string -> bool)
    ensures DriveApplied(plan, 0, s0, remote, stamp, ignored) == s0
  {
    forall d, p ensures NodeAt(DriveApplied(plan, 0, s0, remote, stamp, ignored).To(d), p) == NodeAt(s0.To(d), p) {
      DriveAppliedAt(plan, 0, s0, remote, stamp, ignored, d, p);
    }
    SameSides(DriveApplied(plan, 0, s0, remote, stamp, ignored), s0, remote);
  }

  /** The number of actions that run before the first one that cannot. */
  ghost function DriveReach(plan: seq<SyncAction>, k: nat, s0: Sides, remote: Direction,
                            ignored: string -> bool): (n: nat)
    requires k <= |plan|
    ensures n <= k && DriveEnabledUpTo(plan, n, s0, remote, ignored)
    ensures n < k ==> !DriveEnabled(plan[n], s0, remote, ignored)
  {
    if k == 0 then 0
    else
      var n := DriveReach(plan, k - 1, s0, remote, ignored);
      if n == k - 1 && DriveEnabled(plan[k - 1], s0, remote, ignored) then k else n
  }

  lemma {:induction false} DriveRunOfSteps(plan: seq<SyncAction>, k: nat, s0: Sides, remote: Direction, stamp: Stamps,
                                           ignored: string -> bool)
    requires k <= |plan| && forall i :: 0 <= i < k ==> DriveStepIs(plan, i, s0, remote, stamp, ignored)
    ensures var n := DriveReach(plan, k, s0, remote, ignored);
            DriveAfter(plan, k, s0, remote, stamp) ==
            Run(DriveApplied(plan, n, s0, remote, stamp, ignored), n == k)
  {
    if k == 0 {
      DriveStart(plan, s0, remote, stamp, ignored);
    } else {
      DriveRunOfSteps(plan, k - 1, s0, remote, stamp, ignored);
      assert DriveStepIs(plan, k - 1, s0, remote, stamp, ignored);
    }
  }

  /** The exact outcome of a run cut after `k` actions: it has got to the first action that cannot succeed. */
  lemma DriveRunExact(plan: seq<SyncAction>, k: nat, s0: Sides, remote: Direction, stamp: Stamps,
                      ignored: string -> bool) returns (n: nat)
    requires k <= |plan| && Sound(s0) && Grounded(plan, s0, ignored) && Closed(ignored)
    ensures n == DriveReach(plan, k, s0, remote, ignored)
    ensures DriveAfter(plan, k, s0, remote, stamp) ==
            Run(DriveApplied(plan, n, s0, remote, stamp, ignored), n == k)
  {
    n := DriveReach(plan, k, s0, remote, ignored);
    forall i | 0 <= i < k ensures DriveStepIs(plan, i, s0, remote, stamp, ignored) {
      DriveStepExact(plan, i, s0, remote, stamp, ignored);
    }
    DriveRunOfSteps(plan, k, s0, remote, stamp, ignored);
  }

  // ----- planned runs

  /** Where no directory removed from Drive holds an ignored entry, a run is the run on two local stores. */
  lemma DriveAgrees(plan: seq<SyncAction>, k: nat, s0: Sides, remote: Direction, stamp: Stamps, ignored: string -> bool)
    requires k <= |plan| && Sound(s0) && Grounded(plan, s0, ignored) && Closed(ignored)
    requires forall i :: 0 <= i < |plan| && plan[i].kind == Delete && plan[i].dir == remote ==>
                           !HoldsIgnored(s0.To(remote), plan[i].path, ignored)
    ensures DriveAfter(plan, k, s0, remote, stamp) == After(plan, k, s0, stamp)
  {
    var n := DriveRunExact(plan, k, s0, remote, stamp, ignored);
    RunExact(plan, k, s0, stamp, ignored);
    var m := Reach(plan, k, s0, ignored);
    forall i | 0 <= i < |plan| ensures DriveEnabled(plan[i], s0, remote, ignored) <==> Enabled(plan[i], s0, ignored) {}
    assert n == m;
    forall d, p ensures NodeAt(DriveApplied(plan, n, s0, remote, stamp, ignored).To(d), p) ==
                        NodeAt(Applied(plan, n, s0, stamp).To(d), p)
    {
      DriveAppliedAt(plan, n, s0, remote, stamp, ignored, d, p);
      if d == remote && ignored(p) && SweptBefore(plan, n, remote, p) {
        IgnoredUntouched(plan, n, s0, stamp, ignored, d, p);
        NothingSwept(plan, n, s0, remote, ignored, p);
      }
    }
    SameSides(DriveApplied(plan, n, s0, remote, stamp, ignored), Applied(plan, n, s0, stamp), remote);
  }

  lemma NothingSwept(plan: seq<SyncAction>, n: nat, s0: Sides, remote: Direction, ignored: string -> bool, p: string)
    requires n <= |plan| && ignored(p) && SweptBefore(plan, n, remote, p)
    requires forall i :: 0 <= i < |plan| && plan[i].kind == Delete && plan[i].dir == remote ==>
                           !HoldsIgnored(s0.To(remote), plan[i].path, ignored)
    ensures p !in s0.To(remote)
  {
    var i :| 0 <= i < n && plan[i].kind == Delete && plan[i].dir == remote && Below(p, plan[i].path);
    assert !HoldsIgnored(s0.To(remote), plan[i].path, ignored);
  }

  /** No effect lands on an ignored path. */
  lemma IgnoredUntouched(plan: seq<SyncAction>, k: nat, s0: Sides, stamp: Stamps, ignored: string -> bool, d: Direction,
                         p: string)
    requires k <= |plan| && Grounded(plan, s0, ignored) && ignored(p)
    ensures NodeAt(Applied(plan, k, s0, stamp).To(d), p) == NodeAt(s0.To(d), p)
  {
    forall i | 0 <= i < k ensures !Touches(plan[i], d, p) {
      assert GroundedAction(plan[i], s0, ignored);
    }
    AppliedUntouched(plan, k, s0, stamp, d, p);
  }

  /** `p` lies below an entry that a one-way run removes. */
  ghost predicate BelowRemoved(from: Tree, to: Tree, ignored: string -> bool, p: string) {
    exists q :: Below(p, q) && q in to && q !in from && !ignored(q)
  }

  lemma SweptIsBelowRemoved(plan: seq<SyncAction>, pol: Policy, s0: Sides, sums: Sums, p: string)
    requires Planned(plan, pol, s0, sums) && pol.mode != TwoWay
    ensures var d := OneWayDirection(pol.mode);
            SweptBefore(plan, |plan|, d, p) <==> BelowRemoved(s0.From(d), s0.To(d), pol.ignored, p)
  {
    var d := OneWayDirection(pol.mode);
    if i :| 0 <= i < |plan| && plan[i].kind == Delete && plan[i].dir == d && Below(p, plan[i].path) {
      PlannedActionGrounded(pol, s0, sums, plan[i]);
    }
    if q :| Below(p, q) && q in s0.To(d) && q !in s0.From(d) && !pol.ignored(q) {
      var i := PlannedIndex(plan, pol, s0, sums, q);
      assert plan[i].kind == Delete && plan[i].dir == d;
    }
  }

  /** What a complete one-way run makes of one path of a Drive receiver: a path that is not ignored mirrors the sending
      side, and an ignored one stays exactly if nothing above it was removed. */
  ghost predicate DriveMirrorsAt(p: string, n: Option<Node>, d: Direction, s0: Sides, sums: Sums,
                                 ignored: string -> bool, stamp: Stamps)
  {
    if ignored(p) then n == if BelowRemoved(s0.From(d), s0.To(d), ignored, p) then None else NodeAt(s0.To(d), p)
    else MirrorsAt(p, n, d, s0, sums, ignored, stamp)
  }

  lemma DriveMirrorAt(plan: seq<SyncAction>, pol: Policy, s0: Sides, sums: Sums, stamp: Stamps, p: string)
    requires Sound(s0) && Closed(pol.ignored) && Planned(plan, pol, s0, sums) && pol.mode != TwoWay
    ensures var d := OneWayDirection(pol.mode);
            DriveMirrorsAt(p, NodeAt(DriveApplied(plan, |plan|, s0, d, stamp, pol.ignored).To(d), p), d, s0, sums,
                           pol.ignored, stamp)
  {
    var d := OneWayDirection(pol.mode);
    PlannedGrounded(plan, pol, s0, sums);
    DriveAppliedAt(plan, |plan|, s0, d, stamp, pol.ignored, d, p);
    if pol.ignored(p) {
      SweptIsBelowRemoved(plan, pol, s0, sums, p);
      IgnoredUntouched(plan, |plan|, s0, stamp, pol.ignored, d, p);
    } else {
      MirrorAt(plan, pol, s0, sums, stamp, p);
    }
  }

  /** Some directory to be made has a file standing above it on the receiving side. */
  ghost predicate BlockedDirectory(from: Tree, to: Tree, ignored: string -> bool) {
    exists p :: p in from && from[p].Dir? && !ignored(p) && FileAbove(to, p)
  }

  /** A one-way run onto Drive, with no file above a directory to be made: it succeeds exactly when no file stands
      above a file to be sent and no path to be changed is refused, whether or not a directory to be removed holds
      ignored entries. It never changes the sending tree. When it succeeds, the other paths mirror the sending side,
      and all ignored entries have survived exactly when no removed directory held one. */
  lemma OneWayOntoDrive(plan: seq<SyncAction>, pol: Policy, s0: Sides, sums: Sums, stamp: Stamps)
    requires Sound(s0) && Closed(pol.ignored) && Planned(plan, pol, s0, sums) && pol.mode != TwoWay
    requires var d := OneWayDirection(pol.mode); !BlockedDirectory(s0.From(d), s0.To(d), pol.ignored)
    ensures var d := OneWayDirection(pol.mode);
            var r := DriveAfter(plan, |plan|, s0, d, stamp);
            && (r.ok <==> !Denied(pol, s0, sums) && !Blocked(s0.From(d), s0.To(d), pol.ignored))
            && r.sides.From(d) == s0.From(d)
            && (r.ok ==>
                  && (forall p :: DriveMirrorsAt(p, NodeAt(r.sides.To(d), p), d, s0, sums, pol.ignored, stamp))
                  && (IgnoredKept(r.sides.To(d), s0.To(d), pol.ignored) <==>
                        !Held(s0.From(d), s0.To(d), pol.ignored)))
  {
    var d := OneWayDirection(pol.mode);
    PlannedGrounded(plan, pol, s0, sums);
    var n := DriveRunExact(plan, |plan|, s0, d, stamp, pol.ignored);
    DriveClear(plan, pol, s0, sums);
    SenderUntouched(plan, n, pol, s0, sums, stamp);
    if n == |plan| {
      var t := DriveApplied(plan, n, s0, d, stamp, pol.ignored).To(d);
      forall p ensures DriveMirrorsAt(p, NodeAt(t, p), d, s0, sums, pol.ignored, stamp) {
        DriveMirrorAt(plan, pol, s0, sums, stamp, p);
      }
      KeptUnlessHeld(t, d, s0, sums, pol.ignored, stamp);
    }
  }

  lemma DriveClear(plan: seq<SyncAction>, pol: Policy, s0: Sides, sums: Sums)
    requires Sound(s0) && Planned(plan, pol, s0, sums) && pol.mode != TwoWay
    ensures var d := OneWayDirection(pol.mode);
            DriveEnabledUpTo(plan, |plan|, s0, d, pol.ignored) <==>
            !Denied(pol, s0, sums) && !Blocked(s0.From(d), s0.To(d), pol.ignored)
  {
    var d := OneWayDirection(pol.mode);
    NothingDenied(plan, pol, s0, sums);
    OneWayActions(plan, pol, s0, sums);
    forall i | 0 <= i < |plan|
      ensures DriveEnabled(plan[i], s0, d, pol.ignored) <==>
              !(plan[i].Mutates() && Refused(plan[i].path)) && (Creates(plan[i]) ==> !FileAbove(s0.To(d), plan[i].path))
      ensures Creates(plan[i]) ==> plan[i].path in s0.From(d) && !pol.ignored(plan[i].path)
    {
      PlannedActionGrounded(pol, s0, sums, plan[i]);
    }
    if forall i :: 0 <= i < |plan| ==> DriveEnabled(plan[i], s0, d, pol.ignored) {
      SentUnblocked(plan, pol, s0, sums);
    }
  }

  lemma SentUnblocked(plan: seq<SyncAction>, pol: Policy, s0: Sides, sums: Sums)
    requires Sound(s0) && Planned(plan, pol, s0, sums) && pol.mode != TwoWay
    requires forall i :: 0 <= i < |plan| ==> DriveEnabled(plan[i], s0, OneWayDirection(pol.mode), pol.ignored)
    ensures var d := OneWayDirection(pol.mode); !Blocked(s0.From(d), s0.To(d), pol.ignored)
  {
    var d := OneWayDirection(pol.mode);
    forall p | p in s0.From(d) && !pol.ignored(p) ensures !FileAbove(s0.To(d), p) {
      if p !in s0.To(d) {
        var i := PlannedIndex(plan, pol, s0, sums, p);
        assert DriveEnabled(plan[i], s0, d, pol.ignored);
      }
    }
  }

  ghost predicate IgnoredKept(t: Tree, t0: Tree, ignored: string -> bool) {
    forall p :: ignored(p) ==> NodeAt(t, p) == NodeAt(t0, p)
  }

  lemma KeptUnlessHeld(t: Tree, d: Direction, s0: Sides, sums: Sums, ignored: string -> bool, stamp: Stamps)
    requires Sound(s0)
    requires forall p :: DriveMirrorsAt(p, NodeAt(t, p), d, s0, sums, ignored, stamp)
    ensures IgnoredKept(t, s0.To(d), ignored) <==> !Held(s0.From(d), s0.To(d), ignored)
  {
    var from, to := s0.From(d), s0.To(d);
    if Held(from, to, ignored) {
      var q :| q in to && q !in from && !ignored(q) && to[q].Dir? && HoldsIgnored(to, q, ignored);
      var p :| p in to && Below(p, q) && ignored(p);
      assert DriveMirrorsAt(p, NodeAt(t, p), d, s0, sums, ignored, stamp) && BelowRemoved(from, to, ignored, p);
    } else {
      forall p | ignored(p) ensures NodeAt(t, p) == NodeAt(to, p) {
        assert DriveMirrorsAt(p, NodeAt(t, p), d, s0, sums, ignored, stamp);
        if p in to { HeldIfBelowRemoved(from, to, ignored, p); }
      }
    }
  }

  lemma HeldIfBelowRemoved(from: Tree, to: Tree, ignored: string -> bool, p: string)
    requires WellFormed(to) && p in to && ignored(p)
    ensures BelowRemoved(from, to, ignored, p) ==> Held(from, to, ignored)
  {
    if q :| Below(p, q) && q in to && q !in from && !ignored(q) {
      assert to[q].Dir? && HoldsIgnored(to, q, ignored);
    }
  }

  /** With Drive on the sending side, or two-way, nothing is ever deleted there. */
  lemma DriveNeverSweeps(plan: seq<SyncAction>, k: nat, pol: Policy, s0: Sides, sums: Sums, remote: Direction,
                         stamp: Stamps)
    requires Sound(s0) && Closed(pol.ignored) && Planned(plan, pol, s0, sums) && k <= |plan|
    requires pol.mode == TwoWay || remote != OneWayDirection(pol.mode)
    ensures DriveAfter(plan, k, s0, remote, stamp) == After(plan, k, s0, stamp)
  {
    PlannedGrounded(plan, pol, s0, sums);
    forall i | 0 <= i < |plan| ensures !(plan[i].kind == Delete && plan[i].dir == remote) {
      PlannedActionGrounded(pol, s0, sums, plan[i]);
    }
    DriveAgrees(plan, k, s0, remote, stamp, pol.ignored);
  }

  // ----- the cache through a run

  /** The local tree and the tree on Drive as the two sides. */
  function SidesOf(local: Tree, onDrive: Tree, remote: Direction): Sides {
    if remote == SourceToTarget then Sides(local, onDrive) else Sides(onDrive, local)
  }

  /** A key that a run of the rule may read or write: a level of the root, or a path below it that is not ignored. The
      adapter is shared by all rules of its endpoint, and what this rule ignores another may have looked up. */
  ghost predicate Seen(key: string, root: string, ignored: string -> bool)
    requires key != "" && root != ""
  {
    Parts(key) <= Parts(root) || exists p :: Clean(p) && !ignored(p) && Parts(key) == Parts(root) + Split(p)
  }

  /** Every seen key is right. */
  ghost predicate SeenRight(cache: map<string, Id>, items: Items, root: string, ignored: string -> bool)
    requires root != ""
  {
    forall key :: key in cache && key != "" && Seen(key, root, ignored) ==> Right(cache, items, key)
  }

  /** No other key has come, gone or changed. */
  ghost predicate UnseenAs(cache: map<string, Id>, had: map<string, Id>, root: string, ignored: string -> bool)
    requires root != ""
  {
    forall key {:trigger key in cache} {:trigger key in had} :: key != "" && !Seen(key, root, ignored) ==>
      (key in cache <==> key in had) && (key in cache ==> cache[key] == had[key])
  }

  /** One of the first `n` actions removed the path of the key, or something above it, from Drive. */
  ghost predicate SweptKey(plan: seq<SyncAction>, n: nat, remote: Direction, root: string, key: string)
    requires n <= |plan| && root != "" && key != ""
  {
    exists i :: 0 <= i < n && plan[i].kind == Delete && plan[i].dir == remote
                && Parts(root) + Split(plan[i].path) <= Parts(key)
  }

  /** The other keys lead where they led, unless what they led to was removed. */
  ghost predicate UnseenMoved(items: Items, was: Items, had: map<string, Id>, plan: seq<SyncAction>, n: nat,
                              remote: Direction, root: string, ignored: string -> bool)
    requires n <= |plan| && root != ""
  {
    forall key :: key in had && key != "" && !Seen(key, root, ignored) ==>
      Resolve(items, Parts(key)) == if SweptKey(plan, n, remote, root, key) then None else Resolve(was, Parts(key))
  }

  /** What one operation on a path does to items and cache. */
  ghost predicate Operated(items: Items, was: Items, cache: map<string, Id>, had: map<string, Id>, path: string,
                           cut: bool)
    requires path != ""
  {
    if cut then CutAt(items, was, Parts(path)) && GrewAlong(cache, had - {path}, Parts(path)) && path !in cache
    else Fills(items, was, Parts(path)) && GrewAlong(cache, had, Parts(path))
  }

  /** Keys along a path that is not ignored are seen. */
  lemma AlongIsSeen(key: string, root: string, p: string, ignored: string -> bool)
    requires Canonical(root) && Clean(p) && !ignored(p) && Closed(ignored)
    requires key != "" && Parts(key) <= Parts(root) + Split(p)
    ensures Seen(key, root, ignored)
  {
    LevelClean(key, root, p);
  }

  lemma UnseenStays(items: Items, was: Items, cache: map<string, Id>, had: map<string, Id>, root: string, p: string,
                    ignored: string -> bool, cut: bool, key: string)
    requires Canonical(root) && Clean(p) && !ignored(p) && Closed(ignored)
    requires Operated(items, was, cache, had, root + "/" + p, cut)
    requires key != "" && !Seen(key, root, ignored)
    ensures (key in cache <==> key in had) && (key in cache ==> cache[key] == had[key])
    ensures Resolve(items, Parts(key)) ==
            if cut && Parts(root) + Split(p) <= Parts(key) then None else Resolve(was, Parts(key))
  {
    FullParts(root, p);
    if Parts(key) <= Parts(root) + Split(p) { AlongIsSeen(key, root, p, ignored); }
    assert key in had <==> key in had - {root + "/" + p};
  }

  /** A seen key stays right: it is one of the path's own, or nothing has moved it. */
  lemma SeenStaysRight(items: Items, was: Items, cache: map<string, Id>, had: map<string, Id>, root: string, p: string,
                       ignored: string -> bool, cut: bool, key: string)
    requires Canonical(root) && Clean(p) && Proper(was)
    requires Operated(items, was, cache, had, root + "/" + p, cut)
    requires RightAlong(cache, items, Parts(root) + Split(p)) && SeenRight(had, was, root, ignored)
    requires cut ==> forall r :: r in TreeOf(was, Parts(root)) && Below(r, p) ==> ignored(r)
    requires key in cache && Canonical(key) && Seen(key, root, ignored)
    ensures Right(cache, items, key)
  {
    var full := root + "/" + p;
    FullParts(root, p);
    if !(Parts(key) <= Parts(full)) {
      assert Right(had, was, key);
      if cut { NotBelow(was, had, root, p, ignored, key); }
    }
  }

  lemma NotBelow(was: Items, had: map<string, Id>, root: string, p: string, ignored: string -> bool, key: string)
    requires Canonical(root) && Clean(p) && Proper(was)
    requires key in had && Canonical(key) && Seen(key, root, ignored) && Right(had, was, key)
    requires forall r :: r in TreeOf(was, Parts(root)) && Below(r, p) ==> ignored(r)
    requires !(Parts(key) <= Parts(root) + Split(p))
    ensures !(Parts(root) + Split(p) <= Parts(key))
  {
    if !(Parts(key) <= Parts(root)) {
      var q :| Clean(q) && !ignored(q) && Parts(key) == Parts(root) + Split(q);
      InTree(was, Parts(root), q);
      LevelsOf(Parts(root), q, p);
    }
  }

  /** The account of the cache after `n` actions. */
  ghost predicate CacheAfter(items: Items, was: Items, cache: map<string, Id>, had: map<string, Id>,
                             plan: seq<SyncAction>, n: nat, remote: Direction, root: string, ignored: string -> bool)
    requires n <= |plan| && root != ""
  {
    && SeenRight(cache, items, root, ignored) && UnseenAs(cache, had, root, ignored)
    && UnseenMoved(items, was, had, plan, n, remote, root, ignored)
  }

  lemma SweptNext(plan: seq<SyncAction>, n: nat, remote: Direction, root: string, key: string)
    requires n < |plan| && root != "" && key != ""
    ensures SweptKey(plan, n + 1, remote, root, key) <==>
            || SweptKey(plan, n, remote, root, key)
            || (plan[n].kind == Delete && plan[n].dir == remote && Parts(root) + Split(plan[n].path) <= Parts(key))
  {
  }

  /** One more operation, of action `n` or part of it. */
  lemma CacheNext(items: Items, before: Items, was: Items, cache: map<string, Id>, mid: map<string, Id>,
                  had: map<string, Id>, plan: seq<SyncAction>, n: nat, remote: Direction, root: string,
                  ignored: string -> bool, ok: bool)
    requires n < |plan| && Canonical(root) && Proper(before) && Closed(ignored) && Keyed(cache)
    requires CacheAfter(before, was, mid, had, plan, n, remote, root, ignored)
    requires Clean(plan[n].path) && !ignored(plan[n].path)
    requires var cut := ok && plan[n].kind == Delete && plan[n].dir == remote;
             && Operated(items, before, cache, mid, root + "/" + plan[n].path, cut)
             && (cut ==> forall r :: r in TreeOf(before, Parts(root)) && Below(r, plan[n].path) ==> ignored(r))
    requires RightAlong(cache, items, Parts(root) + Split(plan[n].path))
    ensures CacheAfter(items, was, cache, had, plan, if ok then n + 1 else n, remote, root, ignored)
  {
    var p := plan[n].path;
    var cut := ok && plan[n].kind == Delete && plan[n].dir == remote;
    var m := if ok then n + 1 else n;
    forall key | key in cache && key != "" && Seen(key, root, ignored) ensures Right(cache, items, key) {
      SeenStaysRight(items, before, cache, mid, root, p, ignored, cut, key);
    }
    forall key | key != "" && !Seen(key, root, ignored)
      ensures (key in cache <==> key in had) && (key in cache ==> cache[key] == had[key])
    {
      UnseenStays(items, before, cache, mid, root, p, ignored, cut, key);
      assert (key in mid <==> key in had) && (key in mid ==> mid[key] == had[key]);
    }
    forall key | key in had && key != "" && !Seen(key, root, ignored)
      ensures Resolve(items, Parts(key)) ==
              if SweptKey(plan, m, remote, root, key) then None else Resolve(was, Parts(key))
    {
      UnseenStays(items, before, cache, mid, root, p, ignored, cut, key);
      if ok { SweptNext(plan, n, remote, root, key); }
    }
  }

  /** At the start: any cache that is right where this rule looks. */
  lemma CacheStart(items: Items, cache: map<string, Id>, plan: seq<SyncAction>, remote: Direction, root: string,
                   ignored: string -> bool)
    requires root != "" && SeenRight(cache, items, root, ignored)
    ensures CacheAfter(items, items, cache, cache, plan, 0, remote, root, ignored)
  {
  }

  /** Some ignored path had its key in the cache and lies below an entry that the first `n` actions removed. */
  ghost predicate KeySwept(had: map<string, Id>, plan: seq<SyncAction>, n: nat, remote: Direction, root: string,
                           ignored: string -> bool)
    requires n <= |plan|
  {
    exists q :: Clean(q) && ignored(q) && root + "/" + q in had && SweptBefore(plan, n, remote, q)
  }

  /** A cache that was right is right afterwards exactly if no ignored key lost what it led to. */
  lemma CoherentUnlessSwept(items: Items, was: Items, cache: map<string, Id>, had: map<string, Id>,
                            plan: seq<SyncAction>, n: nat, remote: Direction, root: string, ignored: string -> bool)
    requires n <= |plan| && Canonical(root) && KeysClean(had, root) && Keyed(cache) && Coherent(had, was)
    requires forall i :: 0 <= i < n && plan[i].kind == Delete ==> Clean(plan[i].path) && !ignored(plan[i].path)
    requires CacheAfter(items, was, cache, had, plan, n, remote, root, ignored)
    ensures Coherent(cache, items) <==> !KeySwept(had, plan, n, remote, root, ignored)
  {
    if q :| Clean(q) && ignored(q) && root + "/" + q in had && SweptBefore(plan, n, remote, q) {
      SweptIsStale(items, was, cache, had, plan, n, remote, root, ignored, q);
    } else {
      forall key | key in cache ensures Right(cache, items, key) {
        if !Seen(key, root, ignored) {
          assert key in had && Right(had, was, key);
          UnsweptKey(had, plan, n, remote, root, ignored, key);
        }
      }
    }
  }

  lemma SweptIsStale(items: Items, was: Items, cache: map<string, Id>, had: map<string, Id>, plan: seq<SyncAction>,
                     n: nat, remote: Direction, root: string, ignored: string -> bool, q: string)
    requires n <= |plan| && Canonical(root) && Clean(q) && ignored(q) && root + "/" + q in had
    requires SweptBefore(plan, n, remote, q)
    requires CacheAfter(items, was, cache, had, plan, n, remote, root, ignored)
    ensures !Coherent(cache, items)
  {
    var key := root + "/" + q;
    FullParts(root, q);
    IgnoredIsUnseen(root, q, ignored);
    var i :| 0 <= i < n && plan[i].kind == Delete && plan[i].dir == remote && Below(q, plan[i].path);
    LevelsOf(Parts(root), q, plan[i].path);
    assert SweptKey(plan, n, remote, root, key);
    assert key in cache && Resolve(items, Parts(key)).None?;
  }

  lemma IgnoredIsUnseen(root: string, q: string, ignored: string -> bool)
    requires Canonical(root) && Clean(q) && ignored(q)
    ensures var key := root + "/" + q; key != "" && !Seen(key, root, ignored)
  {
    FullParts(root, q);
    forall p | Parts(root + "/" + q) == Parts(root) + Split(p) ensures p == q {
      LevelsOf(Parts(root), p, q);
    }
  }

  lemma UnsweptKey(had: map<string, Id>, plan: seq<SyncAction>, n: nat, remote: Direction, root: string,
                   ignored: string -> bool, key: string)
    requires n <= |plan| && Canonical(root) && KeysClean(had, root) && key in had && key != ""
    requires !Seen(key, root, ignored) && !KeySwept(had, plan, n, remote, root, ignored)
    requires forall i :: 0 <= i < n && plan[i].kind == Delete ==> Clean(plan[i].path) && !ignored(plan[i].path)
    ensures !SweptKey(plan, n, remote, root, key)
  {
    var q :| Clean(q) && Parts(key) == Parts(root) + Split(q);
    assert ignored(q);
    FullParts(root, q);
    PartsInjective(key, root + "/" + q);
    forall i | 0 <= i < n && plan[i].kind == Delete && plan[i].dir == remote
      ensures !(Parts(root) + Split(plan[i].path) <= Parts(key))
    {
      LevelsOf(Parts(root), q, plan[i].path);
      assert !SweptBefore(plan, n, remote, q);
    }
  }

  // ----- the run itself

  /** What the stores of a planned run give an action toward Drive: nothing at the path of a directory to be made, and
      no entry at the temporary name of a file. */
  ghost predicate Placed(a: SyncAction, t: Tree) {
    && (a.kind == Copy ==> a.path + TEMP_SUFFIX !in t)
    && (a.kind == Mkdir ==> a.path !in t)
  }

  /** What one action does with items and cache: it deletes if it takes its path from Drive. */
  twostate predicate ActedOn(a: SyncAction, drive: DriveAdapter, cut: bool)
    reads drive, drive.service
  {
    && drive.FullPath(a.path) != "" && drive.ReadyAt(a.path)
    && Operated(drive.service.items, old(drive.service.items), drive.cache, old(drive.cache), drive.FullPath(a.path),
                cut)
  }

  /** The effect of an action toward Drive on the tree there. */
  function OnDrive(a: SyncAction, from: Tree, t: Tree, now: int): Outcome {
    match a.kind
    case Copy =>
      var bytes := Trees.Read(from, a.path);
      if bytes.None? then Outcome(t, false) else Trees.Write(t, a.path, bytes.value, now)
    case Mkdir => MkdirAll(t, a.path)
    case Delete => if Refused(a.path) || a.path !in t then Outcome(t, false) else Outcome(Sweep(t, a.path), true)
    case _ => Outcome(t, true)
  }

  /** The effect of an action toward the local store on the tree there. */
  function Locally(a: SyncAction, from: Tree, t: Tree, now: int): Outcome {
    match a.kind
    case Copy =>
      var bytes := Trees.Read(from, a.path);
      if bytes.None? then Outcome(t, false) else Trees.Write(t, a.path, bytes.value, now)
    case Mkdir => MkdirAll(t, a.path)
    case Delete => Remove(t, a.path)
    case _ => Outcome(t, true)
  }

  lemma ExecutesOn(a: SyncAction, local: Tree, onDrive: Tree, remote: Direction, stamp: Stamps)
    ensures DriveExecute(a, SidesOf(local, onDrive, remote), remote, stamp) ==
            if a.dir == remote then
              var o := OnDrive(a, local, onDrive, stamp(a.path)); Run(SidesOf(local, o.tree, remote), o.ok)
            else
              var o := Locally(a, onDrive, local, stamp(a.path)); Run(SidesOf(o.tree, onDrive, remote), o.ok)
  {
  }

  /** Looking up a path moves nothing. */
  lemma OnlyLookedUp(items: Items, cache: map<string, Id>, had: map<string, Id>, path: string)
    requires path != "" && GrewAlong(cache, had, Parts(path))
    ensures Operated(items, items, cache, had, path, false)
  {
  }

  /** What an action through a stale key comes to: a copy either way and a deletion on Drive fail and change nothing,
      and a directory to be made on Drive passes for made. The key stays, so trying again comes to the same. */
  twostate predicate ActedStale(a: SyncAction, local: LocalAdapter, drive: DriveAdapter, remote: Direction, ok: bool)
    reads local, drive, drive.service
  {
    && drive.Untouched()
    && (a.kind == Copy || (a.kind == Delete && a.dir == remote) ==> !ok && local.tree == old(local.tree))
    && (a.kind == Mkdir && a.dir == remote ==> (ok <==> !Refused(a.path)) && local.tree == old(local.tree))
  }

  /** One action between a local store and Drive; a directory to be made below a file may end with two items of one
      name. Progress is left out here. */
  method DriveAction(a: SyncAction, local: LocalAdapter, drive: DriveAdapter, remote: Direction, stamp: Stamps)
    returns (ok: bool)
    requires Clean(a.path)
    requires drive.StaleAt(a.path) || (drive.ReadyAt(a.path) && (a.dir == remote ==> Placed(a, drive.Contents())))
    modifies local`tree, drive`cache, drive.service
    ensures old(drive.StaleAt(a.path)) ==> ActedStale(a, local, drive, remote, ok)
    ensures old(drive.ReadyAt(a.path)) ==>
              (Twinned(drive.service.items) <==>
                a.kind == Mkdir && a.dir == remote && !Refused(a.path) && old(drive.UnknownFile(a.path)))
    ensures old(drive.ReadyAt(a.path)) && !Twinned(drive.service.items) ==>
              && ActedOn(a, drive, ok && a.kind == Delete && a.dir == remote)
              && Run(SidesOf(local.tree, drive.Contents(), remote), ok) ==
                 DriveExecute(a, old(SidesOf(local.tree, drive.Contents(), remote)), remote, stamp)
  {
    if drive.ReadyAt(a.path) { ExecutesOn(a, local.tree, drive.Contents(), remote, stamp); }
    if a.dir == remote {
      ok := ActOnDrive(a, local, drive, stamp(a.path));
    } else {
      ok := ActLocally(a, local, drive, stamp(a.path));
    }
  }

  method ActOnDrive(a: SyncAction, local: LocalAdapter, drive: DriveAdapter, now: int) returns (ok: bool)
    requires Clean(a.path) && (drive.StaleAt(a.path) || (drive.ReadyAt(a.path) && Placed(a, drive.Contents())))
    modifies drive`cache, drive.service
    ensures old(drive.StaleAt(a.path)) ==> ActedStale(a, local, drive, a.dir, ok)
    ensures old(drive.ReadyAt(a.path)) ==>
              (Twinned(drive.service.items) <==>
                a.kind == Mkdir && !Refused(a.path) && old(drive.UnknownFile(a.path)))
    ensures old(drive.ReadyAt(a.path)) && !Twinned(drive.service.items) ==>
              && ActedOn(a, drive, ok && a.kind == Delete)
              && Outcome(drive.Contents(), ok) == OnDrive(a, local.tree, old(drive.Contents()), now)
  {
    match a.kind {
      case Copy => ok := SendFile(a, local, drive, now);
      case Mkdir => ok := drive.Mkdir(a.path);
      case Delete =>
        ok := drive.Delete(a.path);
        ProperHasNoTwins(drive.service.items);
      case _ =>
        ProperHasNoTwins(drive.service.items);
        if drive.ReadyAt(a.path) {
          OnlyLookedUp(drive.service.items, drive.cache, drive.cache, drive.FullPath(a.path));
        }
        ok := true;
    }
  }

  method SendFile(a: SyncAction, local: LocalAdapter, drive: DriveAdapter, now: int) returns (ok: bool)
    requires Clean(a.path) && (drive.StaleAt(a.path) || (drive.ReadyAt(a.path) && Placed(a, drive.Contents())))
    requires a.kind == Copy
    modifies drive`cache, drive.service
    ensures old(drive.StaleAt(a.path)) ==> ActedStale(a, local, drive, a.dir, ok)
    ensures old(drive.ReadyAt(a.path)) ==>
              && !Twinned(drive.service.items) && ActedOn(a, drive, false)
              && Outcome(drive.Contents(), ok) == OnDrive(a, local.tree, old(drive.Contents()), now)
  {
    var bytes := local.Read(a.path);
    if bytes.None? {
      ProperHasNoTwins(drive.service.items);
      if drive.ReadyAt(a.path) {
        OnlyLookedUp(drive.service.items, drive.cache, drive.cache, drive.FullPath(a.path));
      }
      return false;
    }
    if drive.ReadyAt(a.path) {
      TreeWellFormed(drive.service.items, Parts(drive.root));
      StoreIsWrite(drive.Contents(), a.path, bytes.value, now);
    }
    ok := drive.Write(a.path, bytes.value, now);
    ProperHasNoTwins(drive.service.items);
  }

  method ActLocally(a: SyncAction, local: LocalAdapter, drive: DriveAdapter, now: int) returns (ok: bool)
    requires Clean(a.path) && (drive.ReadyAt(a.path) || drive.StaleAt(a.path))
    modifies local`tree, drive`cache
    ensures old(drive.StaleAt(a.path)) ==>
              drive.Untouched() && (a.kind == Copy ==> !ok && local.tree == old(local.tree))
    ensures old(drive.ReadyAt(a.path)) ==>
              && !Twinned(drive.service.items) && ActedOn(a, drive, false)
              && Outcome(local.tree, ok) == Locally(a, drive.Contents(), old(local.tree), now)
  {
    ProperHasNoTwins(drive.service.items);
    if drive.ReadyAt(a.path) {
      OnlyLookedUp(drive.service.items, drive.cache, drive.cache, drive.FullPath(a.path));
    }
    match a.kind {
      case Copy => ok := FetchFile(a, local, drive, now);
      case Mkdir => ok := local.Mkdir(a.path);
      case Delete => ok := local.Delete(a.path);
      case _ => ok := true;
    }
  }

  method FetchFile(a: SyncAction, local: LocalAdapter, drive: DriveAdapter, now: int) returns (ok: bool)
    requires Clean(a.path) && (drive.ReadyAt(a.path) || drive.StaleAt(a.path)) && a.kind == Copy
    modifies local`tree, drive`cache
    ensures old(drive.StaleAt(a.path)) ==> drive.Untouched() && !ok && local.tree == old(local.tree)
    ensures old(drive.ReadyAt(a.path)) ==>
              && ActedOn(a, drive, false)
              && Outcome(local.tree, ok) == Locally(a, drive.Contents(), old(local.tree), now)
  {
    var bytes := drive.Read(a.path);
    if bytes.None? { return false; }
    ok := Receive(a.path, bytes.value, local, now);
  }

  method Receive(path: string, bytes: Bytes, local: LocalAdapter, now: int) returns (ok: bool)
    modifies local`tree
    ensures Outcome(local.tree, ok) == Trees.Write(old(local.tree), path, bytes, now)
  {
    var reporter := new CallbackReporter();
    var reader := new ProgressReader(bytes, reporter);
    ok := local.Write(path, reader, now);
  }

  /** Every entry's path is clean. */
  ghost predicate AllClean(s: Sides) {
    forall d, p :: p in s.To(d) ==> Clean(p)
  }

  /** Before any action that changes a tree: its path is clean and not ignored, on Drive there is room for it, and below
      a path to be deleted from Drive only ignored entries are left. */
  lemma ReadyOnDrive(plan: seq<SyncAction>, i: nat, s0: Sides, remote: Direction, stamp: Stamps,
                     ignored: string -> bool)
    requires i < |plan| && Sound(s0) && Grounded(plan, s0, ignored) && Closed(ignored) && AllClean(s0)
    requires plan[i].Mutates() && DriveAfter(plan, i, s0, remote, stamp).ok
    ensures var a, t := plan[i], DriveAfter(plan, i, s0, remote, stamp).sides.To(remote);
            && Clean(a.path) && !ignored(a.path)
            && (a.dir == remote ==> Placed(a, t))
            && (a.dir == remote && Creates(a) ==> (FileAbove(t, a.path) <==> FileAbove(s0.To(remote), a.path)))
            && (a.dir == remote && a.kind == Delete ==> forall r :: r in t && Below(r, a.path) ==> ignored(r))
  {
    var a := plan[i];
    var n := DriveRunExact(plan, i, s0, remote, stamp, ignored);
    var s := DriveApplied(plan, i, s0, remote, stamp, ignored);
    assert GroundedAction(a, s0, ignored);
    DrivePending(plan, i, s0, remote, stamp, ignored, remote);
    assert a.path in s0.To(a.dir) || a.path in s0.To(a.dir.Flip());
    if a.dir == remote && Creates(a) {
      DriveReady(plan, i, s0, remote, stamp, ignored);
      SameAbove(s.To(remote), s0.To(remote), a.path);
    }
    if a.dir == remote && a.kind == Delete {
      forall r | r in s.To(remote) && Below(r, a.path) ensures ignored(r) {
        DriveAppliedAt(plan, i, s0, remote, stamp, ignored, remote, r);
        BelowDeleted(plan, i, s0, stamp, ignored, r);
      }
    }
  }

  lemma SameAbove(t: Tree, t0: Tree, p: string)
    requires LevelsReady(t, t0, p)
    ensures FileAbove(t, p) <==> FileAbove(t0, p)
  {
  }

  lemma DriveFailureLasts(plan: seq<SyncAction>, i: nat, k: nat, s: Sides, remote: Direction, stamp: Stamps)
    requires i <= k <= |plan| && !DriveAfter(plan, i, s, remote, stamp).ok
    ensures DriveAfter(plan, k, s, remote, stamp) == DriveAfter(plan, i, s, remote, stamp)
  {
    if i < k { DriveFailureLasts(plan, i, k - 1, s, remote, stamp); }
  }

  ghost predicate DriveRunsTo(plan: seq<SyncAction>, k: nat, s: Sides, remote: Direction, stamp: Stamps, end: Sides,
                              ok: bool)
    requires k <= |plan|
  {
    DriveAfter(plan, k, s, remote, stamp) == Run(end, ok)
  }

  /** An action that leaves two items of one name: a directory to be made on Drive below a file whose ID the cache does
      not hold. */
  ghost predicate MakesTwin(a: SyncAction, t: Tree, remote: Direction, cache: map<string, Id>, root: string) {
    && a.kind == Mkdir && a.dir == remote && !Refused(a.path)
    && exists q :: q in t && t[q].File? && Below(a.path, q) && root + "/" + q !in cache
  }

  /** The cache holds the IDs of the same files as before. */
  ghost predicate FilesAsBefore(cache: map<string, Id>, had: map<string, Id>, t: Tree, root: string) {
    forall q :: q in t && t[q].File? ==> (root + "/" + q in cache <==> root + "/" + q in had)
  }

  /** Looking up a directory, or one to be made where no file is in the way, finds out about no file. */
  lemma NoFileLookedUp(cache: map<string, Id>, mid: map<string, Id>, had: map<string, Id>, t: Tree, root: string,
                       p: string)
    requires Canonical(root) && Clean(p) && (forall q :: q in t ==> Clean(q)) && FilesAsBefore(mid, had, t, root)
    requires GrewAlong(cache, mid, Parts(root) + Split(p)) && !FileAbove(t, p) && (p in t ==> t[p].Dir?)
    ensures FilesAsBefore(cache, had, t, root)
  {
    forall q | q in t && t[q].File? ensures root + "/" + q in cache <==> root + "/" + q in mid {
      FullParts(root, q);
      LevelsOf(Parts(root), p, q);
    }
  }

  /** While directories are still to be made, no file has been looked up. */
  ghost predicate FilesUnlooked(plan: seq<SyncAction>, i: nat, cache: map<string, Id>, had: map<string, Id>, t: Tree,
                                root: string)
    requires i <= |plan|
  {
    i < |plan| && plan[i].kind == Mkdir ==> FilesAsBefore(cache, had, t, root)
  }

  lemma UnlookedNext(plan: seq<SyncAction>, i: nat, cache: map<string, Id>, mid: map<string, Id>,
                     had: map<string, Id>, s0: Sides, remote: Direction, stamp: Stamps, root: string,
                     ignored: string -> bool)
    requires i < |plan| && Sound(s0) && AllClean(s0) && Grounded(plan, s0, ignored) && Closed(ignored) && Sorted(plan)
    requires Canonical(root) && DriveAfter(plan, i + 1, s0, remote, stamp).ok
    requires FilesUnlooked(plan, i, mid, had, s0.To(remote), root)
    requires plan[i].kind == Mkdir ==> GrewAlong(cache, mid, Parts(root) + Split(plan[i].path))
    ensures FilesUnlooked(plan, i + 1, cache, had, s0.To(remote), root)
  {
    if i + 1 < |plan| && plan[i + 1].kind == Mkdir {
      var a, t := plan[i], s0.To(remote);
      PhasesInOrder(plan, i, i + 1);
      assert a.kind == Mkdir && GroundedAction(a, s0, ignored);
      assert a.path in s0.To(remote) ==> a.dir != remote;
      MadeUnblocked(plan, i, s0, remote, stamp, ignored);
      NoFileLookedUp(cache, mid, had, t, root, a.path);
    }
  }

  /** A directory that was made had no file above it on Drive. */
  lemma MadeUnblocked(plan: seq<SyncAction>, i: nat, s0: Sides, remote: Direction, stamp: Stamps,
                      ignored: string -> bool)
    requires i < |plan| && Sound(s0) && Grounded(plan, s0, ignored) && Closed(ignored) && plan[i].kind == Mkdir
    requires DriveAfter(plan, i + 1, s0, remote, stamp).ok
    ensures !FileAbove(s0.To(remote), plan[i].path)
  {
    var a := plan[i];
    assert GroundedAction(a, s0, ignored);
    if a.dir == remote {
      SucceededIsEnabled(plan, i, s0, remote, stamp, ignored);
    } else {
      NoFileAboveEntry(s0.To(remote), a.path);
    }
  }

  lemma SucceededIsEnabled(plan: seq<SyncAction>, i: nat, s0: Sides, remote: Direction, stamp: Stamps,
                           ignored: string -> bool)
    requires i < |plan| && Sound(s0) && Grounded(plan, s0, ignored) && Closed(ignored)
    requires DriveAfter(plan, i + 1, s0, remote, stamp).ok
    ensures DriveEnabled(plan[i], s0, remote, ignored)
  {
    var n := DriveRunExact(plan, i, s0, remote, stamp, ignored);
    DriveStepExact(plan, i, s0, remote, stamp, ignored);
  }

  lemma NoFileAboveEntry(t: Tree, p: string)
    requires WellFormed(t) && p in t
    ensures !FileAbove(t, p)
  {
  }

  /** What action `i` would find in the way is what the trees of the plan and the cache at the start show. */
  lemma TwinWhere(plan: seq<SyncAction>, i: nat, local: LocalAdapter, drive: DriveAdapter, remote: Direction,
                  stamp: Stamps, s0: Sides, ignored: string -> bool, had: map<string, Id>)
    requires i < |plan| && Closed(ignored) && Sound(s0) && AllClean(s0) && Grounded(plan, s0, ignored)
    requires Canonical(drive.root) && plan[i].kind == Mkdir && plan[i].dir == remote
    requires DriveRunsTo(plan, i, s0, remote, stamp, SidesOf(local.tree, drive.Contents(), remote), true)
    requires FilesUnlooked(plan, i, drive.cache, had, s0.To(remote), drive.root)
    ensures drive.UnknownFile(plan[i].path) <==>
            exists q :: q in s0.To(remote) && s0.To(remote)[q].File? && Below(plan[i].path, q)
                        && drive.root + "/" + q !in had
  {
    var p, t, t0 := plan[i].path, drive.Contents(), s0.To(remote);
    ReadyOnDrive(plan, i, s0, remote, stamp, ignored);
    var n := DriveRunExact(plan, i, s0, remote, stamp, ignored);
    DriveReady(plan, i, s0, remote, stamp, ignored);
    assert LevelsReady(t, t0, p);
    forall q | Below(p, q)
      ensures (q in t && t[q].File? && drive.FullPath(q) !in drive.cache) <==>
              (q in t0 && t0[q].File? && drive.root + "/" + q !in had)
    {
      assert q != "";
    }
  }

  /** Stores and cache between two actions. */
  ghost predicate Between(plan: seq<SyncAction>, i: nat, local: LocalAdapter, drive: DriveAdapter, remote: Direction,
                          stamp: Stamps, s0: Sides, ignored: string -> bool, was: Items, had: map<string, Id>, ok: bool,
                          n: nat)
    requires i <= |plan| && n <= |plan|
    reads local, drive, drive.service
  {
    && drive.service.Valid() && drive.Opened()
    && DriveRunsTo(plan, i, s0, remote, stamp, SidesOf(local.tree, drive.Contents(), remote), ok)
    && CacheAfter(drive.service.items, was, drive.cache, had, plan, n, remote, drive.root, ignored)
  }

  lemma ReadyWhereSeen(cache: map<string, Id>, items: Items, root: string, p: string, ignored: string -> bool)
    requires Canonical(root) && Clean(p) && !ignored(p) && Closed(ignored) && KeysClean(cache, root)
    requires SeenRight(cache, items, root, ignored)
    ensures RightAlong(cache, items, Parts(root) + Split(p))
  {
    forall key | key in cache && Parts(key) <= Parts(root) + Split(p) ensures Right(cache, items, key) {
      AlongIsSeen(key, root, p, ignored);
    }
  }

  lemma CacheSkips(items: Items, was: Items, cache: map<string, Id>, had: map<string, Id>, plan: seq<SyncAction>,
                   n: nat, remote: Direction, root: string, ignored: string -> bool)
    requires n < |plan| && root != "" && plan[n].kind != Delete
    requires CacheAfter(items, was, cache, had, plan, n, remote, root, ignored)
    ensures CacheAfter(items, was, cache, had, plan, n + 1, remote, root, ignored)
  {
    forall key | key != "" ensures SweptKey(plan, n + 1, remote, root, key) <==> SweptKey(plan, n, remote, root, key) {
      SweptNext(plan, n, remote, root, key);
    }
  }

  /** The first `k` actions keep away from the paths whose keys are not known to be right; the ignored ones are among
      these. */
  ghost predicate Spares(plan: seq<SyncAction>, k: nat, unseen: string -> bool, ignored: string -> bool)
    requires k <= |plan|
  {
    && Closed(unseen) && (forall p :: ignored(p) ==> unseen(p))
    && forall i :: 0 <= i < k && plan[i].Mutates() ==> !unseen(plan[i].path)
  }

  /** All actions of a plan keep away from the ignored paths. */
  lemma SparesAll(plan: seq<SyncAction>, pol: Policy, s0: Sides, sums: Sums)
    requires Sound(s0) && Closed(pol.ignored) && Planned(plan, pol, s0, sums)
    ensures Spares(plan, |plan|, pol.ignored, pol.ignored)
  {
    PlannedGrounded(plan, pol, s0, sums);
    forall i | 0 <= i < |plan| ensures !pol.ignored(plan[i].path) {
      assert GroundedAction(plan[i], s0, pol.ignored);
    }
  }

  /** What action `i` finds. */
  lemma ReadyNext(plan: seq<SyncAction>, i: nat, local: LocalAdapter, drive: DriveAdapter, remote: Direction,
                  stamp: Stamps, s0: Sides, ignored: string -> bool, unseen: string -> bool, was: Items,
                  had: map<string, Id>)
    requires i < |plan| && Closed(ignored) && Sound(s0) && AllClean(s0) && Grounded(plan, s0, ignored)
    requires Between(plan, i, local, drive, remote, stamp, s0, unseen, was, had, true, i) && plan[i].Mutates()
    requires Spares(plan, i + 1, unseen, ignored)
    ensures var a, t := plan[i], drive.Contents();
            && Clean(a.path) && !unseen(a.path) && drive.ReadyAt(a.path)
            && drive.FullPath(a.path) == drive.root + "/" + a.path
            && Parts(drive.FullPath(a.path)) == Parts(drive.root) + Split(a.path)
            && (a.dir == remote ==> Placed(a, t))
            && (a.dir == remote && Creates(a) ==> (FileAbove(t, a.path) <==> FileAbove(s0.To(remote), a.path)))
            && (a.dir == remote && a.kind == Delete ==> forall r :: r in t && Below(r, a.path) ==> unseen(r))
  {
    ReadyOnDrive(plan, i, s0, remote, stamp, ignored);
    FullParts(drive.root, plan[i].path);
    ReadyWhereSeen(drive.cache, drive.service.items, drive.root, plan[i].path, unseen);
  }

  lemma BetweenNext(plan: seq<SyncAction>, i: nat, local: LocalAdapter, drive: DriveAdapter, remote: Direction,
                    stamp: Stamps, s0: Sides, unseen: string -> bool, was: Items, had: map<string, Id>, items: Items,
                    cache: map<string, Id>, s: Sides, ok: bool)
    requires i < |plan| && Closed(unseen) && Clean(plan[i].path) && !unseen(plan[i].path) && Proper(items)
    requires drive.ReadyAt(plan[i].path) && Canonical(drive.root)
    requires DriveRunsTo(plan, i, s0, remote, stamp, s, true)
    requires Run(SidesOf(local.tree, drive.Contents(), remote), ok) == DriveExecute(plan[i], s, remote, stamp)
    requires CacheAfter(items, was, cache, had, plan, i, remote, drive.root, unseen)
    requires var cut := ok && plan[i].kind == Delete && plan[i].dir == remote;
             && Operated(drive.service.items, items, drive.cache, cache, drive.root + "/" + plan[i].path, cut)
             && (cut ==> forall r :: r in TreeOf(items, Parts(drive.root)) && Below(r, plan[i].path) ==> unseen(r))
    ensures Between(plan, i + 1, local, drive, remote, stamp, s0, unseen, was, had, ok, if ok then i + 1 else i)
  {
    FullParts(drive.root, plan[i].path);
    assert drive.FullPath(plan[i].path) == drive.root + "/" + plan[i].path;
    CacheNext(drive.service.items, items, was, drive.cache, cache, had, plan, i, remote, drive.root, unseen, ok);
  }

  method NextOnDrive(plan: seq<SyncAction>, i: nat, local: LocalAdapter, drive: DriveAdapter, remote: Direction,
                     stamp: Stamps, ghost s0: Sides, ghost ignored: string -> bool,
                     ghost unseen: string -> bool, ghost was: Items, ghost had: map<string, Id>)
    returns (ok: bool)
    requires i < |plan| && Closed(ignored) && Sound(s0) && AllClean(s0) && Grounded(plan, s0, ignored)
    requires Spares(plan, i + 1, unseen, ignored)
    requires Between(plan, i, local, drive, remote, stamp, s0, unseen, was, had, true, i) && Sorted(plan)
    requires FilesUnlooked(plan, i, drive.cache, had, s0.To(remote), drive.root)
    modifies local`tree, drive`cache, drive.service
    ensures Twinned(drive.service.items) <==> MakesTwin(plan[i], s0.To(remote), remote, had, drive.root)
    ensures !Twinned(drive.service.items) ==>
              Between(plan, i + 1, local, drive, remote, stamp, s0, unseen, was, had, ok, if ok then i + 1 else i)
    ensures !Twinned(drive.service.items) && ok ==>
              FilesUnlooked(plan, i + 1, drive.cache, had, s0.To(remote), drive.root)
  {
    if plan[i].Mutates() {
      ok := MutateOnDrive(plan, i, local, drive, remote, stamp, s0, ignored, unseen, was, had);
    } else {
      ProperHasNoTwins(drive.service.items);
      CacheSkips(drive.service.items, was, drive.cache, had, plan, i, remote, drive.root, unseen);
      ok := true;
    }
  }

  /** An action that may change a tree; a directory to be made that finds an unknown file in the way leaves two items of
      one name. */
  method ActNext(plan: seq<SyncAction>, i: nat, local: LocalAdapter, drive: DriveAdapter, remote: Direction,
                 stamp: Stamps, ghost s0: Sides, ghost ignored: string -> bool,
                 ghost unseen: string -> bool, ghost was: Items, ghost had: map<string, Id>)
    returns (ok: bool)
    requires i < |plan| && Closed(ignored) && Sound(s0) && AllClean(s0) && Grounded(plan, s0, ignored)
    requires Spares(plan, i + 1, unseen, ignored)
    requires Between(plan, i, local, drive, remote, stamp, s0, unseen, was, had, true, i) && plan[i].Mutates()
    modifies local`tree, drive`cache, drive.service
    ensures Clean(plan[i].path)
    ensures Twinned(drive.service.items) <==>
              && plan[i].kind == Mkdir && plan[i].dir == remote && !Refused(plan[i].path)
              && old(drive.UnknownFile(plan[i].path))
    ensures !Twinned(drive.service.items) ==>
              && Between(plan, i + 1, local, drive, remote, stamp, s0, unseen, was, had, ok, if ok then i + 1 else i)
              && (plan[i].kind == Mkdir ==>
                    GrewAlong(drive.cache, old(drive.cache), Parts(drive.root) + Split(plan[i].path)))
  {
    ghost var items, cache := drive.service.items, drive.cache;
    ghost var s := SidesOf(local.tree, drive.Contents(), remote);
    ReadyNext(plan, i, local, drive, remote, stamp, s0, ignored, unseen, was, had);
    ok := DriveAction(plan[i], local, drive, remote, stamp);
    if !Twinned(drive.service.items) {
      BetweenNext(plan, i, local, drive, remote, stamp, s0, unseen, was, had, items, cache, s, ok);
    }
  }

  method MutateOnDrive(plan: seq<SyncAction>, i: nat, local: LocalAdapter, drive: DriveAdapter, remote: Direction,
                       stamp: Stamps, ghost s0: Sides, ghost ignored: string -> bool,
                       ghost unseen: string -> bool, ghost was: Items, ghost had: map<string, Id>)
    returns (ok: bool)
    requires i < |plan| && Closed(ignored) && Sound(s0) && AllClean(s0) && Grounded(plan, s0, ignored)
    requires Spares(plan, i + 1, unseen, ignored)
    requires Between(plan, i, local, drive, remote, stamp, s0, unseen, was, had, true, i) && Sorted(plan)
    requires FilesUnlooked(plan, i, drive.cache, had, s0.To(remote), drive.root) && plan[i].Mutates()
    modifies local`tree, drive`cache, drive.service
    ensures Twinned(drive.service.items) <==> MakesTwin(plan[i], s0.To(remote), remote, had, drive.root)
    ensures !Twinned(drive.service.items) ==>
              Between(plan, i + 1, local, drive, remote, stamp, s0, unseen, was, had, ok, if ok then i + 1 else i)
    ensures !Twinned(drive.service.items) && ok ==>
              FilesUnlooked(plan, i + 1, drive.cache, had, s0.To(remote), drive.root)
  {
    ghost var cache := drive.cache;
    if plan[i].kind == Mkdir && plan[i].dir == remote {
      TwinWhere(plan, i, local, drive, remote, stamp, s0, ignored, had);
    }
    ok := ActNext(plan, i, local, drive, remote, stamp, s0, ignored, unseen, was, had);
    if !Twinned(drive.service.items) && ok {
      UnlookedNext(plan, i, drive.cache, cache, had, s0, remote, stamp, drive.root, ignored);
    }
  }

  /** The cache after `n` successful actions: right for every key that the rule may look up and, if it was right
      altogether, right altogether exactly unless some ignored path whose key it held lost what it led to. */
  ghost predicate CacheEnds(drive: DriveAdapter, had: map<string, Id>, wasRight: bool, plan: seq<SyncAction>, n: nat,
                            remote: Direction, unseen: string -> bool)
    requires n <= |plan|
    reads drive, drive.service
  {
    && drive.service.Valid() && drive.Opened()
    && SeenRight(drive.cache, drive.service.items, drive.root, unseen)
    && (wasRight ==> (drive.Valid() <==> !KeySwept(had, plan, n, remote, drive.root, unseen)))
  }

  /** How the first `k` actions of a plan ended after `n` successful ones: the stores exactly as specified and the cache
      as in `CacheEnds`, unless the next action left two items of one name; a run is not followed beyond that. */
  ghost predicate Ran(plan: seq<SyncAction>, k: nat, n: nat, local: LocalAdapter, drive: DriveAdapter,
                      remote: Direction, stamp: Stamps, s0: Sides, had: map<string, Id>, wasRight: bool, ok: bool,
                      unseen: string -> bool)
    requires k <= |plan|
    reads local, drive, drive.service
  {
    && n <= k && DriveAfter(plan, n, s0, remote, stamp).ok
    && (n < k ==> !DriveAfter(plan, n + 1, s0, remote, stamp).ok)
    && (Twinned(drive.service.items) <==> n < k && MakesTwin(plan[n], s0.To(remote), remote, had, drive.root))
    && (!Twinned(drive.service.items) ==>
          && (ok <==> n == k)
          && CacheEnds(drive, had, wasRight, plan, n, remote, unseen)
          && DriveRunsTo(plan, k, s0, remote, stamp, SidesOf(local.tree, drive.Contents(), remote), ok))
  }

  /** The first `k` actions of a plan between a local store and Drive, with an adapter whose cache is right for every
      path that is not `unseen`, provided these actions keep away from the others. The ignored paths are `unseen`, and
      so may be more, such as what other rules have left wrong keys of (`Distrusted`). */
  method RunOnDrive(plan: seq<SyncAction>, k: nat, local: LocalAdapter, drive: DriveAdapter, remote: Direction,
                    stamp: Stamps, ghost pol: Policy, ghost sums: Sums, ghost unseen: string -> bool)
    returns (ok: bool, ghost n: nat)
    requires k <= |plan| && drive.service.Valid() && drive.Opened() && Closed(pol.ignored)
    requires Spares(plan, k, unseen, pol.ignored)
    requires SeenRight(drive.cache, drive.service.items, drive.root, unseen)
    requires var s0 := SidesOf(local.tree, drive.Contents(), remote);
             Sound(s0) && AllClean(s0) && Planned(plan, pol, s0, sums)
    modifies local`tree, drive`cache, drive.service
    ensures Ran(plan, k, n, local, drive, remote, stamp, old(SidesOf(local.tree, drive.Contents(), remote)),
                old(drive.cache), old(drive.Valid()), ok, unseen)
  {
    ghost var s0, was, had := SidesOf(local.tree, drive.Contents(), remote), drive.service.items, drive.cache;
    RunStarts(plan, local, drive, remote, stamp, s0, unseen, was, had);
    ok, n := RunActions(plan, k, local, drive, remote, stamp, s0, pol, sums, unseen, was, had);
  }

  /** The next action, or the end of the run. */
  method StepOnDrive(plan: seq<SyncAction>, i: nat, k: nat, local: LocalAdapter, drive: DriveAdapter,
                     remote: Direction, stamp: Stamps, ghost s0: Sides, ghost pol: Policy,
                     ghost sums: Sums, ghost unseen: string -> bool, ghost was: Items,
                     ghost had: map<string, Id>)
    returns (ok: bool, going: bool)
    requires i < k <= |plan| && Closed(pol.ignored) && Sound(s0) && AllClean(s0) && Planned(plan, pol, s0, sums)
    requires Spares(plan, k, unseen, pol.ignored)
    requires Between(plan, i, local, drive, remote, stamp, s0, unseen, was, had, true, i)
    requires FilesUnlooked(plan, i, drive.cache, had, s0.To(remote), drive.root) && KeysClean(had, drive.root)
    modifies local`tree, drive`cache, drive.service
    ensures going <==> ok && !Twinned(drive.service.items)
    ensures going ==>
              && Between(plan, i + 1, local, drive, remote, stamp, s0, unseen, was, had, true, i + 1)
              && FilesUnlooked(plan, i + 1, drive.cache, had, s0.To(remote), drive.root)
    ensures !going ==> Ran(plan, k, i, local, drive, remote, stamp, s0, had, Coherent(had, was), ok, unseen)
  {
    PlannedGrounded(plan, pol, s0, sums);
    ghost var before := SidesOf(local.tree, drive.Contents(), remote);
    ok := NextOnDrive(plan, i, local, drive, remote, stamp, s0, pol.ignored, unseen, was, had);
    going := ok && !Twinned(drive.service.items);
    if Twinned(drive.service.items) {
      TwinEnds(plan, i, k, local, drive, remote, stamp, s0, before, pol.ignored, unseen, had, Coherent(had, was), ok);
    } else if !ok {
      FailureEnds(plan, i, k, local, drive, remote, stamp, s0, before, pol.ignored, unseen, was, had);
    }
  }

  /** The ordered loop. */
  method RunActions(plan: seq<SyncAction>, k: nat, local: LocalAdapter, drive: DriveAdapter, remote: Direction,
                    stamp: Stamps, ghost s0: Sides, ghost pol: Policy, ghost sums: Sums,
                    ghost unseen: string -> bool, ghost was: Items, ghost had: map<string, Id>)
    returns (ok: bool, ghost n: nat)
    requires k <= |plan| && Closed(pol.ignored) && Sound(s0) && AllClean(s0) && Planned(plan, pol, s0, sums)
    requires Spares(plan, k, unseen, pol.ignored)
    requires Between(plan, 0, local, drive, remote, stamp, s0, unseen, was, had, true, 0)
    requires drive.cache == had && KeysClean(had, drive.root)
    modifies local`tree, drive`cache, drive.service
    ensures Ran(plan, k, n, local, drive, remote, stamp, s0, had, Coherent(had, was), ok, unseen)
  {
    n := 0;
    for i := 0 to k
      invariant n == i
      invariant Between(plan, i, local, drive, remote, stamp, s0, unseen, was, had, true, i)
      invariant FilesUnlooked(plan, i, drive.cache, had, s0.To(remote), drive.root)
    {
      var going;
      ok, going := StepOnDrive(plan, i, k, local, drive, remote, stamp, s0, pol, sums, unseen, was, had);
      if !going { return; }
      n := n + 1;
    }
    RunEnds(plan, k, local, drive, remote, stamp, s0, pol, sums, unseen, was, had);
    ok := true;
  }

  lemma RunStarts(plan: seq<SyncAction>, local: LocalAdapter, drive: DriveAdapter, remote: Direction, stamp: Stamps,
                  s0: Sides, unseen: string -> bool, was: Items, had: map<string, Id>)
    requires drive.service.Valid() && drive.Opened() && drive.service.items == was && drive.cache == had
    requires s0 == SidesOf(local.tree, drive.Contents(), remote) && SeenRight(had, was, drive.root, unseen)
    ensures Between(plan, 0, local, drive, remote, stamp, s0, unseen, was, had, true, 0)
    ensures KeysClean(had, drive.root)
  {
    CacheStart(was, had, plan, remote, drive.root, unseen);
  }

  /** An action that leaves two items of one name fails in the specification. */
  lemma TwinEnds(plan: seq<SyncAction>, i: nat, k: nat, local: LocalAdapter, drive: DriveAdapter, remote: Direction,
                 stamp: Stamps, s0: Sides, before: Sides, ignored: string -> bool, unseen: string -> bool,
                 had: map<string, Id>, wasRight: bool, ok: bool)
    requires i < k <= |plan| && Sound(s0) && Grounded(plan, s0, ignored) && Closed(ignored)
    requires DriveRunsTo(plan, i, s0, remote, stamp, before, true) && Twinned(drive.service.items)
    requires MakesTwin(plan[i], s0.To(remote), remote, had, drive.root)
    ensures Ran(plan, k, i, local, drive, remote, stamp, s0, had, wasRight, ok, unseen)
  {
    if DriveAfter(plan, i + 1, s0, remote, stamp).ok { MadeUnblocked(plan, i, s0, remote, stamp, ignored); }
  }

  lemma FailureEnds(plan: seq<SyncAction>, i: nat, k: nat, local: LocalAdapter, drive: DriveAdapter, remote: Direction,
                    stamp: Stamps, s0: Sides, before: Sides, ignored: string -> bool, unseen: string -> bool,
                    was: Items, had: map<string, Id>)
    requires i < k <= |plan| && AllClean(s0) && Grounded(plan, s0, ignored) && Spares(plan, k, unseen, ignored)
    requires DriveRunsTo(plan, i, s0, remote, stamp, before, true)
    requires Between(plan, i + 1, local, drive, remote, stamp, s0, unseen, was, had, false, i)
    requires Canonical(drive.root) && KeysClean(had, drive.root) && !Twinned(drive.service.items)
    requires !MakesTwin(plan[i], s0.To(remote), remote, had, drive.root)
    ensures Ran(plan, k, i, local, drive, remote, stamp, s0, had, Coherent(had, was), false, unseen)
  {
    DriveFailureLasts(plan, i + 1, k, s0, remote, stamp);
    CacheAccount(plan, i, drive, s0, remote, ignored, unseen, was, had);
  }

  lemma RunEnds(plan: seq<SyncAction>, k: nat, local: LocalAdapter, drive: DriveAdapter, remote: Direction,
                stamp: Stamps, s0: Sides, pol: Policy, sums: Sums, unseen: string -> bool, was: Items,
                had: map<string, Id>)
    requires k <= |plan| && Closed(pol.ignored) && Sound(s0) && AllClean(s0) && Planned(plan, pol, s0, sums)
    requires Spares(plan, k, unseen, pol.ignored)
    requires Between(plan, k, local, drive, remote, stamp, s0, unseen, was, had, true, k)
    requires Canonical(drive.root) && KeysClean(had, drive.root)
    ensures Ran(plan, k, k, local, drive, remote, stamp, s0, had, Coherent(had, was), true, unseen)
  {
    PlannedGrounded(plan, pol, s0, sums);
    ProperHasNoTwins(drive.service.items);
    CacheAccount(plan, k, drive, s0, remote, pol.ignored, unseen, was, had);
  }

  lemma CacheAccount(plan: seq<SyncAction>, n: nat, drive: DriveAdapter, s0: Sides, remote: Direction,
                     ignored: string -> bool, unseen: string -> bool, was: Items, had: map<string, Id>)
    requires n <= |plan| && AllClean(s0) && Grounded(plan, s0, ignored) && Spares(plan, n, unseen, ignored)
    requires drive.service.Valid() && drive.Opened() && KeysClean(had, drive.root)
    requires CacheAfter(drive.service.items, was, drive.cache, had, plan, n, remote, drive.root, unseen)
    ensures Coherent(had, was) ==> (drive.Valid() <==> !KeySwept(had, plan, n, remote, drive.root, unseen))
  {
    forall i | 0 <= i < n && plan[i].kind == Delete ensures Clean(plan[i].path) && !unseen(plan[i].path) {
      assert GroundedAction(plan[i], s0, ignored);
      assert plan[i].path in s0.To(plan[i].dir);
    }
    if Coherent(had, was) {
      CoherentUnlessSwept(drive.service.items, was, drive.cache, had, plan, n, remote, drive.root, unseen);
    }
  }

  // ----- wrong keys

  /** A wrong key is kept for the path. */
  ghost predicate WrongAt(cache: map<string, Id>, items: Items, root: string, q: string) {
    root + "/" + q in cache && !Right(cache, items, root + "/" + q)
  }

  /** What is ignored, and what is at or below a path with a wrong key. */
  ghost function Distrusted(cache: map<string, Id>, items: Items, root: string, ignored: string -> bool)
    : string -> bool
  {
    p => ignored(p) || exists q :: (q == p || Below(p, q)) && WrongAt(cache, items, root, q)
  }

  /** Whatever is wrong in a cache, up to the first action at or below a path with a wrong key a run goes as it would
      with a right one. */
  lemma DistrustedIsUnseen(plan: seq<SyncAction>, k: nat, cache: map<string, Id>, items: Items, root: string,
                           ignored: string -> bool)
    requires k <= |plan| && Canonical(root) && KeysClean(cache, root) && Closed(ignored)
    requires forall key :: key in cache && Parts(key) <= Parts(root) ==> Right(cache, items, key)
    requires forall i :: 0 <= i < k && plan[i].Mutates() ==>
               && !ignored(plan[i].path)
               && forall q :: q == plan[i].path || Below(plan[i].path, q) ==> !WrongAt(cache, items, root, q)
    ensures var unseen := Distrusted(cache, items, root, ignored);
            Spares(plan, k, unseen, ignored) && SeenRight(cache, items, root, unseen)
  {
    var unseen := Distrusted(cache, items, root, ignored);
    forall p, q | Below(p, q) && unseen(q) ensures unseen(p) {
      if !ignored(q) {
        var r :| (r == q || Below(q, r)) && WrongAt(cache, items, root, r);
        if r != q { BelowTransitive(p, q, r); }
      }
    }
    forall key | key in cache && key != "" && Seen(key, root, unseen) ensures Right(cache, items, key) {
      if !(Parts(key) <= Parts(root)) {
        var p :| Clean(p) && !unseen(p) && Parts(key) == Parts(root) + Split(p);
        FullParts(root, p);
        PartsInjective(key, root + "/" + p);
        assert !WrongAt(cache, items, root, p);
      }
    }
  }

  // ----- when a cache that was right stays right

  /** In a right cache an ignored key can lose what it led to only in a one-way run onto Drive that removes a directory
      holding an ignored entry. */
  lemma SweptOnlyIfHeld(had: map<string, Id>, items: Items, plan: seq<SyncAction>, n: nat, pol: Policy, s0: Sides,
                        sums: Sums, remote: Direction, root: string)
    requires n <= |plan| && Canonical(root) && Proper(items) && Coherent(had, items) && Sound(s0)
    requires Planned(plan, pol, s0, sums) && TreeOf(items, Parts(root)) == s0.To(remote)
    requires KeySwept(had, plan, n, remote, root, pol.ignored)
    ensures pol.mode != TwoWay && remote == OneWayDirection(pol.mode)
    ensures Held(s0.From(remote), s0.To(remote), pol.ignored)
  {
    var q :| Clean(q) && pol.ignored(q) && root + "/" + q in had && SweptBefore(plan, n, remote, q);
    FullParts(root, q);
    assert Right(had, items, root + "/" + q);
    InTree(items, Parts(root), q);
    var i :| 0 <= i < n && plan[i].kind == Delete && plan[i].dir == remote && Below(q, plan[i].path);
    PlannedActionGrounded(pol, s0, sums, plan[i]);
    var to, p := s0.To(remote), plan[i].path;
    assert HoldsIgnored(to, p, pol.ignored);
    assert p in to && p !in s0.From(remote) && !pol.ignored(p) && to[p].Dir?;
  }

  /** Nor can it where the cache held no ignored key, as after this rule alone has used the adapter. */
  lemma NothingSweptUnseen(had: map<string, Id>, plan: seq<SyncAction>, n: nat, remote: Direction, root: string,
                           ignored: string -> bool)
    requires n <= |plan| && Canonical(root)
    requires forall key :: key in had && key != "" ==> Seen(key, root, ignored)
    ensures !KeySwept(had, plan, n, remote, root, ignored)
  {
    forall q | Clean(q) && ignored(q) ensures root + "/" + q !in had {
      IgnoredIsUnseen(root, q, ignored);
    }
  }

  /** A new adapter has looked up its root only, so a run cannot make its cache go wrong. */
  lemma NothingSweptNew(cache: map<string, Id>, plan: seq<SyncAction>, n: nat, remote: Direction, root: string,
                        ignored: string -> bool)
    requires n <= |plan| && Canonical(root) && GrewAlong(cache, map[], Parts(root))
    ensures !KeySwept(cache, plan, n, remote, root, ignored)
  {
    NothingSweptUnseen(cache, plan, n, remote, root, ignored);
  }

  /** It knows no file, so any file above a directory to be made gets a second item beside it. */
  lemma NewTwins(cache: map<string, Id>, root: string, a: SyncAction, t: Tree, remote: Direction)
    requires Canonical(root) && GrewAlong(cache, map[], Parts(root)) && (forall q :: q in t ==> Clean(q))
    ensures MakesTwin(a, t, remote, cache, root) <==>
            a.kind == Mkdir && a.dir == remote && !Refused(a.path) && FileAbove(t, a.path)
  {
    forall q | q in t ensures root + "/" + q !in cache { FullParts(root, q); }
  }

  // ----- the failing case of a shared adapter

  /** A push that ignores "d/f". */
  function SharedPolicy(): Policy {
    Policy(OneWayPush, Manual, p => p == "d/f" || Below(p, "d/f"))
  }

  /** Below the root "/r" the folder "d" with the file "d/f". */
  function SharedItems(b: Bytes, t: int): Items {
    Nested()[3 := Item("f", 2, false, b, t)]
  }

  /** All of it has been looked up. */
  function SharedCache(): map<string, Id> {
    map["/r" := 1, "/r/d" := 2, "/r/d/f" := 3]
  }

  /** Nothing local, and "d" with "d/f" on Drive. */
  function SharedSides(b: Bytes, t: int): Sides {
    Sides(map[], map["d" := Dir, "d/f" := File(b, t)])
  }

  lemma SharedNames()
    ensures Parts("/r") == ["r"] && Canonical("/r") && Clean("d") && Clean("d/f")
    ensures Parts("/r") + Split("d") == ["r", "d"] && Parts("/r") + Split("d/f") == ["r", "d", "f"]
  {
    NestedNames();
  }

  lemma SharedKeys()
    ensures Canonical("/r/d") && Parts("/r/d") == Parts("/r") + Split("d")
    ensures Canonical("/r/d/f") && Parts("/r/d/f") == Parts("/r") + Split("d/f")
  {
    SharedNames();
    assert "/r" + "/" + "d" == "/r/d" && "/r" + "/" + "d/f" == "/r/d/f";
    FullParts("/r", "d");
    FullParts("/r", "d/f");
  }

  lemma SharedPaths(b: Bytes, t: int)
    ensures var items := SharedItems(b, t);
            && Proper(items) && Resolve(items, ["r"]) == Some(1) && Resolve(items, ["r", "d"]) == Some(2)
            && Resolve(items, ["r", "d", "f"]) == Some(3) && Resolve(items, []) == Some(ROOT)
  {
    NestedPaths();
    ChangeContent(Nested(), SharedItems(b, t));
  }

  /** The cache is right. */
  lemma SharedIsRight(b: Bytes, t: int)
    ensures var items := SharedItems(b, t);
            && Proper(items) && Rooted(items, Parts("/r"))
            && Coherent(SharedCache(), items) && KeysClean(SharedCache(), "/r")
  {
    SharedNames();
    SharedPaths(b, t);
    forall key | key in SharedCache()
      ensures Canonical(key) && Right(SharedCache(), SharedItems(b, t), key)
      ensures Parts(key) <= Parts("/r") || CleanBelow(key, "/r")
    {
      SharedKeyIsRight(b, t, key);
    }
  }

  lemma SharedKeyIsRight(b: Bytes, t: int, key: string)
    requires key in SharedCache()
    ensures Canonical(key) && Right(SharedCache(), SharedItems(b, t), key)
    ensures Parts(key) <= Parts("/r") || CleanBelow(key, "/r")
  {
    SharedNames();
    SharedKeys();
    SharedPaths(b, t);
    if key == "/r/d" {
      assert CleanBelow(key, "/r") by { assert Clean("d") && Parts(key) == Parts("/r") + Split("d"); }
    } else if key == "/r/d/f" {
      assert CleanBelow(key, "/r") by { assert Clean("d/f") && Parts(key) == Parts("/r") + Split("d/f"); }
    }
  }

  /** The drive shows the tree. */
  lemma SharedTree(b: Bytes, t: int)
    ensures TreeOf(SharedItems(b, t), Parts("/r")) == SharedSides(b, t).To(SourceToTarget)
  {
    var items, base, to := SharedItems(b, t), Parts("/r"), SharedSides(b, t).To(SourceToTarget);
    SharedPaths(b, t);
    SharedNames();
    forall p ensures NodeAt(TreeOf(items, base), p) == NodeAt(to, p) {
      TreeAt(items, base, p);
      if Clean(p) && p != "d" && p != "d/f" { SharedElsewhere(b, t, p); }
      if p == "d" { assert At(items, base, "d") == Some(2); }
      if p == "d/f" { assert At(items, base, "d/f") == Some(3); }
    }
    SameNodes(TreeOf(items, base), to);
  }

  lemma SharedElsewhere(b: Bytes, t: int, p: string)
    requires Clean(p) && p != "d" && p != "d/f"
    ensures At(SharedItems(b, t), Parts("/r"), p).None?
  {
    SharedNames();
    LevelsOf(Parts("/r"), p, "d");
    LevelsOf(Parts("/r"), p, "d/f");
    NothingElseShared(b, t, Parts("/r") + Split(p));
  }

  lemma NothingElseShared(b: Bytes, t: int, parts: seq<string>)
    requires |parts| > 1 && parts != ["r", "d"] && parts != ["r", "d", "f"]
    ensures Resolve(SharedItems(b, t), parts).None?
  {
    var items := SharedItems(b, t);
    SharedPaths(b, t);
    if Resolve(items, parts).Some? {
      var other := match Resolve(items, parts).value
        case 0 => []
        case 1 => ["r"]
        case 2 => ["r", "d"]
        case _ => ["r", "d", "f"];
      ResolveInjective(items, parts, other);
    }
  }

  lemma SharedIsSound(b: Bytes, t: int)
    ensures Closed(SharedPolicy().ignored) && Sound(SharedSides(b, t)) && AllClean(SharedSides(b, t))
  {
    NestedNames();
    forall q | Below("d/f", q) ensures q == "d" { OnlyAbove(q); }
    forall p, q | Below(p, q) && SharedPolicy().ignored(q) ensures SharedPolicy().ignored(p) {
      if q != "d/f" { BelowTransitive(p, q, "d/f"); }
    }
    forall p ensures p + TEMP_SUFFIX != "d" && p + TEMP_SUFFIX != "d/f" {
      assert |p + TEMP_SUFFIX| > 3;
    }
  }

  lemma OnlyAbove(q: string)
    requires Below("d/f", q)
    ensures q == "d"
  {
    assert "d/f"[|q|] == '/' && q == "d/f"[..1] == "d";
  }

  lemma SharedPlan(b: Bytes, t: int, sums: Sums) returns (plan: seq<SyncAction>)
    ensures Planned(plan, SharedPolicy(), SharedSides(b, t), sums)
    ensures |plan| == 1 && plan[0].kind == Delete && plan[0].dir == SourceToTarget && plan[0].path == "d"
  {
    plan := [DecideNodes(SharedPolicy(), SharedSides(b, t), sums, "d").value];
    PlannedIntro(plan, SharedPolicy(), SharedSides(b, t), sums);
  }

  /** Another rule of the same endpoint has looked up "d/f", and the whole cache is right. The plan of this one deletes
      "d", succeeds, and leaves the key of "d/f" behind. */
  lemma SharedAdapterCase(b: Bytes, t: int, sums: Sums, stamp: Stamps) returns (plan: seq<SyncAction>)
    ensures var items := SharedItems(b, t);
            && Proper(items) && Rooted(items, Parts("/r")) && KeysClean(SharedCache(), "/r")
            && Coherent(SharedCache(), items)
            && TreeOf(items, Parts("/r")) == SharedSides(b, t).To(SourceToTarget)
    ensures Closed(SharedPolicy().ignored) && Sound(SharedSides(b, t)) && AllClean(SharedSides(b, t))
    ensures Planned(plan, SharedPolicy(), SharedSides(b, t), sums) && |plan| == 1
    ensures DriveAfter(plan, 1, SharedSides(b, t), SourceToTarget, stamp).ok
    ensures KeySwept(SharedCache(), plan, 1, SourceToTarget, "/r", SharedPolicy().ignored)
  {
    SharedIsRight(b, t);
    SharedTree(b, t);
    SharedIsSound(b, t);
    plan := SharedPlan(b, t, sums);
    SharedRuns(plan, b, t, stamp);
    SharedKeySwept(plan);
  }

  lemma SharedRuns(plan: seq<SyncAction>, b: Bytes, t: int, stamp: Stamps)
    requires |plan| == 1 && plan[0].kind == Delete && plan[0].dir == SourceToTarget && plan[0].path == "d"
    ensures DriveAfter(plan, 1, SharedSides(b, t), SourceToTarget, stamp).ok
  {
    assert DriveAfter(plan, 0, SharedSides(b, t), SourceToTarget, stamp) == Run(SharedSides(b, t), true);
  }

  lemma SharedKeySwept(plan: seq<SyncAction>)
    requires |plan| == 1 && plan[0].kind == Delete && plan[0].dir == SourceToTarget && plan[0].path == "d"
    ensures KeySwept(SharedCache(), plan, 1, SourceToTarget, "/r", SharedPolicy().ignored)
  {
    assert Clean("d/f") by { NestedNames(); }
    assert SweptBefore(plan, 1, SourceToTarget, "d/f") by { assert Below("d/f", "d"); }
    assert "/r" + "/" + "d/f" == "/r/d/f";
  }
}
