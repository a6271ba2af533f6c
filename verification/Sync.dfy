/** What a planned run does to two trees: mirroring, safety, convergence and resumption. */
module Sync {
  import opened Domain
  import opened Paths
  import opened Trees
  import opened PlannerSpec
  import opened Execution
  import Diff
  import Conflict

  /** The checksum each endpoint reports for its files. */
  datatype Sums = Sums(src: Digest, tgt: Digest)

  /** Both endpoints compute one checksum function, absent in the same cases. */
  ghost predicate Shared(sums: Sums) {
    forall p, b :: sums.src(p, b) == sums.tgt(p, b)
  }

  function ListTree(t: Tree, sum: Digest): Listing {
    map p | p in t :: Info(p, t[p], sum)
  }

  ghost predicate Planned(plan: seq<SyncAction>, pol: Policy, s: Sides, sums: Sums) {
    IsPlan(plan, pol, ListTree(s.src, sums.src), ListTree(s.tgt, sums.tgt))
  }

  function DecideNodes(pol: Policy, s: Sides, sums: Sums, p: string): (r: Option<SyncAction>)
    ensures r.Some? ==> r.value.path == p
  {
    Decide(pol, ListTree(s.src, sums.src), ListTree(s.tgt, sums.tgt), p)
  }

  lemma PlannedIntro(plan: seq<SyncAction>, pol: Policy, s: Sides, sums: Sums)
    requires Sorted(plan)
    requires forall a :: a in plan ==> DecideNodes(pol, s, sums, a.path) == Some(a)
    requires forall p :: DecideNodes(pol, s, sums, p).Some? ==> DecideNodes(pol, s, sums, p).value in plan
    ensures Planned(plan, pol, s, sums)
  {
    var src, tgt := ListTree(s.src, sums.src), ListTree(s.tgt, sums.tgt);
    forall p ensures Decide(pol, src, tgt, p) == DecideNodes(pol, s, sums, p) {
    }
  }

  /** The position of a path's action. */
  lemma PlannedIndex(plan: seq<SyncAction>, pol: Policy, s: Sides, sums: Sums, p: string) returns (i: nat)
    requires Planned(plan, pol, s, sums) && DecideNodes(pol, s, sums, p).Some?
    ensures i < |plan| && plan[i] == DecideNodes(pol, s, sums, p).value && plan[i].path == p
  {
    DecisionPath(pol, ListTree(s.src, sums.src), ListTree(s.tgt, sums.tgt), p);
    var a := DecideNodes(pol, s, sums, p).value;
    i :| 0 <= i < |plan| && plan[i] == a;
  }

  lemma PlannedUnique(a: seq<SyncAction>, b: seq<SyncAction>, pol: Policy, s: Sides, sums: Sums)
    requires Planned(a, pol, s, sums) && Planned(b, pol, s, sums)
    ensures a == b
  {
    PlanDeterministic(a, b, pol, ListTree(s.src, sums.src), ListTree(s.tgt, sums.tgt));
  }

  // ----- every plan is grounded in the trees it was made from

  lemma PlannedActionGrounded(pol: Policy, s: Sides, sums: Sums, a: SyncAction)
    requires DecideNodes(pol, s, sums, a.path) == Some(a)
    ensures GroundedAction(a, s, pol.ignored)
    ensures a.kind == Delete ==> pol.mode != TwoWay
    ensures pol.mode == OneWayPush ==> a.dir == SourceToTarget
    ensures pol.mode == OneWayPull ==> a.dir == TargetToSource
  {
  }

  /** A directory missing on the receiving side of a created path gets its own Mkdir. */
  lemma ParentPlanned(pol: Policy, s: Sides, sums: Sums, a: SyncAction, q: string)
    requires Sound(s) && Closed(pol.ignored)
    requires DecideNodes(pol, s, sums, a.path) == Some(a) && Creates(a)
    requires Below(a.path, q) && q !in s.To(a.dir)
    ensures var b := DecideNodes(pol, s, sums, q);
            b.Some? && b.value.kind == Mkdir && Touches(b.value, a.dir, q) && Less(b.value, a)
  {
    PlannedActionGrounded(pol, s, sums, a);
    assert q in s.From(a.dir) && s.From(a.dir)[q].Dir? && !pol.ignored(q);
    DepthBelow(a.path, q);
  }

  /** Everything below a deleted directory is deleted too, unless it is ignored. */
  lemma ChildPlanned(pol: Policy, s: Sides, sums: Sums, a: SyncAction, r: string)
    requires Sound(s)
    requires DecideNodes(pol, s, sums, a.path) == Some(a) && a.kind == Delete
    requires Below(r, a.path) && r in s.To(a.dir) && !pol.ignored(r)
    ensures var b := DecideNodes(pol, s, sums, r);
            b.Some? && b.value.kind == Delete && Touches(b.value, a.dir, r) && Less(b.value, a)
  {
    PlannedActionGrounded(pol, s, sums, a);
    assert r !in s.From(a.dir);
    DepthBelow(r, a.path);
  }

  lemma PlannedGrounded(plan: seq<SyncAction>, pol: Policy, s: Sides, sums: Sums)
    requires Sound(s) && Closed(pol.ignored) && Planned(plan, pol, s, sums)
    ensures Grounded(plan, s, pol.ignored)
  {
    var src, tgt := ListTree(s.src, sums.src), ListTree(s.tgt, sums.tgt);
    forall i, j | 0 <= i < j < |plan| ensures plan[i].path != plan[j].path {
      if plan[i].path == plan[j].path { PathsDistinct(plan, pol, src, tgt, i, j); }
    }
    forall i | 0 <= i < |plan| ensures GroundedAction(plan[i], s, pol.ignored) {
      PlannedActionGrounded(pol, s, sums, plan[i]);
    }
    forall i, q | 0 <= i < |plan| && Creates(plan[i]) && Below(plan[i].path, q) && q !in s.To(plan[i].dir)
      ensures MadeBefore(plan, i, q)
    {
      ParentPlanned(pol, s, sums, plan[i], q);
      var j := OrderOfMembers(plan, DecideNodes(pol, s, sums, q).value, i);
    }
    forall i, r | 0 <= i < |plan| && plan[i].kind == Delete && Below(r, plan[i].path)
                  && r in s.To(plan[i].dir) && !pol.ignored(r)
      ensures DeletedBefore(plan, i, r)
    {
      ChildPlanned(pol, s, sums, plan[i], r);
      var j := OrderOfMembers(plan, DecideNodes(pol, s, sums, r).value, i);
    }
  }

  // ----- invariants of every run

  /** Both trees stay well formed through every run, failed or cut short. */
  lemma SoundThroughout(plan: seq<SyncAction>, k: nat, pol: Policy, s0: Sides, sums: Sums, stamp: Stamps)
    requires k <= |plan| && Sound(s0) && Closed(pol.ignored) && Planned(plan, pol, s0, sums)
    ensures Sound(After(plan, k, s0, stamp).sides)
  {
    PlannedGrounded(plan, pol, s0, sums);
    RunExact(plan, k, s0, stamp, pol.ignored);
    var n := Reach(plan, k, s0, pol.ignored);
    AppliedSound(plan, n, s0, stamp, pol.ignored, SourceToTarget);
    AppliedSound(plan, n, s0, stamp, pol.ignored, TargetToSource);
  }

  lemma AppliedSound(plan: seq<SyncAction>, n: nat, s0: Sides, stamp: Stamps, ignored: string -> bool, d: Direction)
    requires n <= |plan| && Sound(s0) && Grounded(plan, s0, ignored) && EnabledUpTo(plan, n, s0, ignored)
    ensures WellFormed(Applied(plan, n, s0, stamp).To(d)) && NoTemp(Applied(plan, n, s0, stamp).To(d))
  {
    var t := Applied(plan, n, s0, stamp).To(d);
    forall i | 0 <= i < n && plan[i].Mutates() ensures plan[i].path != "" {
      assert GroundedAction(plan[i], s0, ignored);
    }
    AppliedUntouched(plan, n, s0, stamp, d, "");
    forall p, q | p in t && Below(p, q) ensures q in t && t[q].Dir? {
      if TouchedBefore(plan, n, d, p) {
        var i :| 0 <= i < n && Touches(plan[i], d, p);
        AboveTouched(plan, n, s0, stamp, ignored, d, i, q);
      } else {
        AboveKept(plan, n, s0, stamp, ignored, d, p, q);
      }
    }
    forall p ensures p + TEMP_SUFFIX !in t {
      NoTempKept(plan, n, s0, stamp, ignored, d, p);
    }
  }

  /** Above an original entry that is still there every directory is still there: removing one would
      have needed the entry to go first. */
  lemma AboveKept(plan: seq<SyncAction>, n: nat, s0: Sides, stamp: Stamps, ignored: string -> bool, d: Direction,
                  p: string, q: string)
    requires n <= |plan| && Sound(s0) && Grounded(plan, s0, ignored) && EnabledUpTo(plan, n, s0, ignored)
    requires !TouchedBefore(plan, n, d, p) && p in Applied(plan, n, s0, stamp).To(d) && Below(p, q)
    ensures NodeAt(Applied(plan, n, s0, stamp).To(d), q) == Some(Dir)
  {
    AppliedUntouched(plan, n, s0, stamp, d, p);
    forall j | 0 <= j < n ensures !Touches(plan[j], d, q) {
      assert GroundedAction(plan[j], s0, ignored) && Enabled(plan[j], s0, ignored);
      assert ignored(p) ==> HoldsIgnored(s0.To(d), q, ignored);
      assert Touches(plan[j], d, q) && plan[j].kind == Delete && !ignored(p) ==> DeletedBefore(plan, j, p);
    }
    AppliedUntouched(plan, n, s0, stamp, d, q);
  }

  /** Above a created entry there is a directory at every level. */
  lemma AboveTouched(plan: seq<SyncAction>, n: nat, s0: Sides, stamp: Stamps, ignored: string -> bool, d: Direction,
                     i: nat, q: string)
    requires n <= |plan| && Sound(s0) && Grounded(plan, s0, ignored) && EnabledUpTo(plan, n, s0, ignored)
    requires i < n && Touches(plan[i], d, plan[i].path) && Below(plan[i].path, q)
    requires plan[i].path in Applied(plan, n, s0, stamp).To(d)
    ensures NodeAt(Applied(plan, n, s0, stamp).To(d), q) == Some(Dir)
  {
    AppliedTouched(plan, n, s0, stamp, i);
    assert GroundedAction(plan[i], s0, ignored) && Creates(plan[i]) && Enabled(plan[i], s0, ignored);
    assert q in s0.From(d) && s0.From(d)[q].Dir?;
    if q in s0.To(d) {
      forall j | 0 <= j < n ensures !Touches(plan[j], d, q) {
        assert GroundedAction(plan[j], s0, ignored);
      }
      AppliedUntouched(plan, n, s0, stamp, d, q);
      assert !FileAbove(s0.To(d), plan[i].path);
    } else {
      assert MadeBefore(plan, i, q);
      var j :| 0 <= j < i && plan[j].kind == Mkdir && Touches(plan[j], d, q);
      AppliedTouched(plan, n, s0, stamp, j);
    }
  }

  // ----- one way: the receiving tree becomes a mirror

  function OneWayDirection(mode: SyncMode): Direction {
    if mode == OneWayPull then TargetToSource else SourceToTarget
  }

  /** Some path to be sent has a file standing above it on the receiving side. */
  ghost predicate Blocked(from: Tree, to: Tree, ignored: string -> bool) {
    exists p :: p in from && !ignored(p) && FileAbove(to, p)
  }

  /** Some directory to be removed holds an ignored entry. */
  ghost predicate Held(from: Tree, to: Tree, ignored: string -> bool) {
    exists p :: p in to && p !in from && !ignored(p) && to[p].Dir? && HoldsIgnored(to, p, ignored)
  }

  function FileInfos(p: string, s: Sides, sums: Sums): (Option<FileInfo>, Option<FileInfo>) {
    (Lookup(ListTree(s.src, sums.src), p), Lookup(ListTree(s.tgt, sums.tgt), p))
  }

  /** `Compare` tells the two versions of `p` apart. */
  predicate Differ(p: string, s: Sides, sums: Sums) {
    var (x, y) := FileInfos(p, s, sums);
    Diff.Compare(x, y) == Diff.FileModified
  }

  /** Some path the adapters refuse has to be made, rewritten or removed: only one side has it, or both have files that
      `Compare` tells apart and, two-way, the strategy picks a winner. */
  ghost predicate Denied(pol: Policy, s0: Sides, sums: Sums) {
    exists p :: Refused(p) && !pol.ignored(p) && Unequal(p, pol, s0, sums)
  }

  predicate Unequal(p: string, pol: Policy, s0: Sides, sums: Sums) {
    || ((p in s0.src) != (p in s0.tgt))
    || (FilesDiffer(p, s0, sums)
        && (pol.mode == TwoWay ==>
              Conflict.Winner(pol.strategy, Info(p, s0.src[p], sums.src), Info(p, s0.tgt[p], sums.tgt)).Some?))
  }

  predicate FilesDiffer(p: string, s0: Sides, sums: Sums) {
    p in s0.src && p in s0.tgt && s0.src[p].File? && s0.tgt[p].File? && Differ(p, s0, sums)
  }

  predicate SameKind(m: Node, n: Node) {
    m.File? == n.File?
  }

  /** `t` mirrors the sending tree after starting as the receiving tree: ignored paths are as before; the
      other paths are those sent, with their types and contents, except that a reported type mismatch is
      left standing and a file that `Compare` took for identical is not rewritten. */
  ghost predicate Mirrors(t: Tree, d: Direction, s0: Sides, sums: Sums, ignored: string -> bool, stamp: Stamps) {
    forall p :: MirrorsAt(p, NodeAt(t, p), d, s0, sums, ignored, stamp)
  }

  predicate MirrorsAt(p: string, n: Option<Node>, d: Direction, s0: Sides, sums: Sums, ignored: string -> bool,
                      stamp: Stamps) {
    var from, to := NodeAt(s0.From(d), p), NodeAt(s0.To(d), p);
    if ignored(p) then n == to
    else if from.None? then n == None
    else
      && n.Some?
      && (to.Some? && !SameKind(from.value, to.value) ==> n == to)
      && ((to.Some? ==> SameKind(from.value, to.value)) ==> SameKind(n.value, from.value))
      && (from.value.File? && (to.Some? ==> to.value.File?) ==>
            n == if to.Some? && !Differ(p, s0, sums) then to else Some(File(from.value.bytes, stamp(p))))
  }

  lemma OneWayActions(plan: seq<SyncAction>, pol: Policy, s0: Sides, sums: Sums)
    requires Planned(plan, pol, s0, sums) && pol.mode != TwoWay
    ensures forall i :: 0 <= i < |plan| ==> plan[i].dir == OneWayDirection(pol.mode)
  {
  }

  /** The sending tree is never written. */
  lemma SenderUntouched(plan: seq<SyncAction>, n: nat, pol: Policy, s0: Sides, sums: Sums, stamp: Stamps)
    requires n <= |plan| && Planned(plan, pol, s0, sums) && pol.mode != TwoWay
    ensures Applied(plan, n, s0, stamp).From(OneWayDirection(pol.mode)) == s0.From(OneWayDirection(pol.mode))
  {
    var d := OneWayDirection(pol.mode);
    var t := Applied(plan, n, s0, stamp).From(d);
    OneWayActions(plan, pol, s0, sums);
    forall p ensures NodeAt(t, p) == NodeAt(s0.From(d), p) {
      assert !TouchedBefore(plan, n, d.Flip(), p);
      AppliedUntouched(plan, n, s0, stamp, d.Flip(), p);
    }
    SameNodes(t, s0.From(d));
  }

  /** Doing what the decision for a path says makes the path mirror the sending side. */
  lemma DecisionMirrors(pol: Policy, s0: Sides, sums: Sums, stamp: Stamps, p: string)
    requires pol.mode != TwoWay
    ensures var d, a := OneWayDirection(pol.mode), DecideNodes(pol, s0, sums, p);
            var n := if a.Some? && a.value.Mutates() then Effect(a.value, s0, stamp) else NodeAt(s0.To(d), p);
            MirrorsAt(p, n, d, s0, sums, pol.ignored, stamp)
  {
  }

  lemma MirrorAt(plan: seq<SyncAction>, pol: Policy, s0: Sides, sums: Sums, stamp: Stamps, p: string)
    requires Sound(s0) && Closed(pol.ignored) && Planned(plan, pol, s0, sums) && pol.mode != TwoWay
    ensures var d := OneWayDirection(pol.mode);
            MirrorsAt(p, NodeAt(Applied(plan, |plan|, s0, stamp).To(d), p), d, s0, sums, pol.ignored, stamp)
  {
    var d, n := OneWayDirection(pol.mode), |plan|;
    PlannedGrounded(plan, pol, s0, sums);
    OneWayActions(plan, pol, s0, sums);
    DecisionMirrors(pol, s0, sums, stamp, p);
    var a := DecideNodes(pol, s0, sums, p);
    if a.Some? && a.value.Mutates() {
      var i := PlannedIndex(plan, pol, s0, sums, p);
      AppliedTouched(plan, n, s0, stamp, i);
    } else {
      NotPlanned(plan, pol, s0, sums, p, d);
      AppliedUntouched(plan, n, s0, stamp, d, p);
    }
  }

  lemma NotPlanned(plan: seq<SyncAction>, pol: Policy, s0: Sides, sums: Sums, p: string, d: Direction)
    requires Planned(plan, pol, s0, sums)
    requires var a := DecideNodes(pol, s0, sums, p); a.Some? ==> !a.value.Mutates()
    ensures !TouchedBefore(plan, |plan|, d, p)
  {
  }

  /** Exactly the paths that are not equal get an action that changes a tree. */
  lemma UnequalMutates(pol: Policy, s0: Sides, sums: Sums, p: string)
    requires !pol.ignored(p)
    ensures Unequal(p, pol, s0, sums) <==>
            var a := DecideNodes(pol, s0, sums, p); a.Some? && a.value.Mutates()
  {
    if pol.mode == TwoWay && FilesDiffer(p, s0, sums) {
      Conflict.ResolveFromPlanner(pol.strategy, p, Info(p, s0.src[p], sums.src), Info(p, s0.tgt[p], sums.tgt));
    }
  }

  /** No action of a plan is refused exactly when nothing that has to change is. */
  lemma NothingDenied(plan: seq<SyncAction>, pol: Policy, s0: Sides, sums: Sums)
    requires Planned(plan, pol, s0, sums)
    ensures Denied(pol, s0, sums) <==> exists i :: 0 <= i < |plan| && plan[i].Mutates() && Refused(plan[i].path)
  {
    if Denied(pol, s0, sums) {
      var p :| Refused(p) && !pol.ignored(p) && Unequal(p, pol, s0, sums);
      UnequalMutates(pol, s0, sums, p);
      var i := PlannedIndex(plan, pol, s0, sums, p);
      assert plan[i].Mutates() && Refused(plan[i].path);
    }
    if i :| 0 <= i < |plan| && plan[i].Mutates() && Refused(plan[i].path) {
      PlannedActionGrounded(pol, s0, sums, plan[i]);
      UnequalMutates(pol, s0, sums, plan[i].path);
    }
  }

  /** What lets every action of a one-way plan succeed: no file blocks a path to be sent, no directory to be removed
      holds an ignored entry, and no path to be changed is refused. */
  ghost predicate OneWayClear(pol: Policy, s0: Sides, sums: Sums) {
    var d := OneWayDirection(pol.mode);
    && !Blocked(s0.From(d), s0.To(d), pol.ignored)
    && !Held(s0.From(d), s0.To(d), pol.ignored)
    && !Denied(pol, s0, sums)
  }

  /** A one-way run on two local stores succeeds exactly when nothing blocks, holds or denies it. It never changes the
      sending tree, and when it succeeds the receiving tree is a mirror. */
  lemma OneWayMirror(plan: seq<SyncAction>, pol: Policy, s0: Sides, sums: Sums, stamp: Stamps)
    requires Sound(s0) && Closed(pol.ignored) && Planned(plan, pol, s0, sums) && pol.mode != TwoWay
    ensures var d, r := OneWayDirection(pol.mode), After(plan, |plan|, s0, stamp);
            && (r.ok <==> OneWayClear(pol, s0, sums))
            && r.sides.From(d) == s0.From(d)
            && (r.ok ==> Mirrors(r.sides.To(d), d, s0, sums, pol.ignored, stamp))
  {
    PlannedGrounded(plan, pol, s0, sums);
    RunExact(plan, |plan|, s0, stamp, pol.ignored);
    OneWayEnabled(plan, pol, s0, sums);
    var n := Reach(plan, |plan|, s0, pol.ignored);
    SenderUntouched(plan, n, pol, s0, sums, stamp);
    if n == |plan| {
      var d := OneWayDirection(pol.mode);
      var t := Applied(plan, n, s0, stamp).To(d);
      forall p ensures MirrorsAt(p, NodeAt(t, p), d, s0, sums, pol.ignored, stamp) {
        MirrorAt(plan, pol, s0, sums, stamp, p);
      }
    }
  }

  lemma OneWayEnabled(plan: seq<SyncAction>, pol: Policy, s0: Sides, sums: Sums)
    requires Sound(s0) && Closed(pol.ignored) && Planned(plan, pol, s0, sums) && pol.mode != TwoWay
    ensures EnabledUpTo(plan, |plan|, s0, pol.ignored) <==> OneWayClear(pol, s0, sums)
  {
    NothingDenied(plan, pol, s0, sums);
    if EnabledUpTo(plan, |plan|, s0, pol.ignored) {
      NothingBlocked(plan, pol, s0, sums);
      NothingHeld(plan, pol, s0, sums);
    } else {
      var i :| 0 <= i < |plan| && !Enabled(plan[i], s0, pol.ignored);
      OneWayDisabled(plan, pol, s0, sums, i);
    }
  }

  lemma NothingBlocked(plan: seq<SyncAction>, pol: Policy, s0: Sides, sums: Sums)
    requires Sound(s0) && Planned(plan, pol, s0, sums) && pol.mode != TwoWay
    requires forall i :: 0 <= i < |plan| ==> Enabled(plan[i], s0, pol.ignored)
    ensures var d := OneWayDirection(pol.mode); !Blocked(s0.From(d), s0.To(d), pol.ignored)
  {
    var d := OneWayDirection(pol.mode);
    var from, to := s0.From(d), s0.To(d);
    forall p | p in from && !pol.ignored(p) ensures !FileAbove(to, p) {
      if p !in to {
        var i := PlannedIndex(plan, pol, s0, sums, p);
        assert Enabled(plan[i], s0, pol.ignored);
      }
    }
  }

  lemma NothingHeld(plan: seq<SyncAction>, pol: Policy, s0: Sides, sums: Sums)
    requires Sound(s0) && Planned(plan, pol, s0, sums) && pol.mode != TwoWay
    requires forall i :: 0 <= i < |plan| ==> Enabled(plan[i], s0, pol.ignored)
    ensures var d := OneWayDirection(pol.mode); !Held(s0.From(d), s0.To(d), pol.ignored)
  {
    var d := OneWayDirection(pol.mode);
    var from, to := s0.From(d), s0.To(d);
    forall p | p in to && p !in from && !pol.ignored(p) && to[p].Dir? ensures !HoldsIgnored(to, p, pol.ignored) {
      var i := PlannedIndex(plan, pol, s0, sums, p);
      assert Enabled(plan[i], s0, pol.ignored);
    }
  }

  lemma OneWayDisabled(plan: seq<SyncAction>, pol: Policy, s0: Sides, sums: Sums, i: nat)
    requires Sound(s0) && Planned(plan, pol, s0, sums) && pol.mode != TwoWay
    requires i < |plan| && !Enabled(plan[i], s0, pol.ignored)
    ensures var d := OneWayDirection(pol.mode);
            || Blocked(s0.From(d), s0.To(d), pol.ignored) || Held(s0.From(d), s0.To(d), pol.ignored)
            || (plan[i].Mutates() && Refused(plan[i].path))
  {
    PlannedActionGrounded(pol, s0, sums, plan[i]);
  }

  /** A name that merely starts with two dots is enough: a file "..foo" on the source is listed and planned, and the
      run fails at it without having changed anything, whatever it holds and wherever the store would put it. */
  lemma RefusedNameFails(b: Bytes, sums: Sums, stamp: Stamps)
    ensures var pol := Policy(OneWayPush, Manual, _ => false);
            var s0 := Sides(map["..foo" := File(b, 0)], map[]);
            var plan := [DecideNodes(pol, s0, sums, "..foo").value];
            && Sound(s0) && Planned(plan, pol, s0, sums) && plan[0].kind == Copy
            && Denied(pol, s0, sums) && After(plan, 1, s0, stamp) == Run(s0, false)
  {
    var pol := Policy(OneWayPush, Manual, _ => false);
    var s0 := Sides(map["..foo" := File(b, 0)], map[]);
    var a := DecideNodes(pol, s0, sums, "..foo").value;
    PlannedIntro([a], pol, s0, sums);
    assert Refused("..foo") && Unequal("..foo", pol, s0, sums);
    assert Execute(a, s0, stamp) == Run(s0, false);
    assert After([a], 0, s0, stamp) == Run(s0, true);
  }
}
