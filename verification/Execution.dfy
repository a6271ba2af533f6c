/** Running a plan on a pair of trees: exactly when it succeeds, and the exact state after each step. */
module Execution {
  import opened Domain
  import opened Paths
  import opened Trees
  import opened PlannerSpec

  /** The trees of a rule's two endpoints. */
  datatype Sides = Sides(src: Tree, tgt: Tree) {
    /** The tree an action in direction `d` writes to. */
    function To(d: Direction): Tree {
      if d == SourceToTarget then tgt else src
    }
    /** The tree an action in direction `d` reads from. */
    function From(d: Direction): Tree {
      To(d.Flip())
    }
    function WithTo(d: Direction, t: Tree): Sides {
      if d == SourceToTarget then this.(tgt := t) else this.(src := t)
    }
  }

  ghost predicate Sound(s: Sides) {
    WellFormed(s.src) && WellFormed(s.tgt) && NoTemp(s.src) && NoTemp(s.tgt)
  }

  /** The modification time the receiving store gives to a written path. A plan writes a path at most
      once, so any behaviour of the clocks is some such function. */
  type Stamps = string -> int

  datatype Run = Run(sides: Sides, ok: bool)

  /** One action on the current trees. */
  ghost function Execute(a: SyncAction, s: Sides, stamp: Stamps): Run {
    match a.kind
    case Copy =>
      var bytes := Read(s.From(a.dir), a.path);
      if bytes.None? then Run(s, false)
      else
        var o := Write(s.To(a.dir), a.path, bytes.value, stamp(a.path));
        Run(s.WithTo(a.dir, o.tree), o.ok)
    case Mkdir =>
      var o := MkdirAll(s.To(a.dir), a.path);
      Run(s.WithTo(a.dir, o.tree), o.ok)
    case Delete =>
      var o := Remove(s.To(a.dir), a.path);
      Run(s.WithTo(a.dir, o.tree), o.ok)
    case Skip => Run(s, true)
    case Conflict => Run(s, true)
  }

  /** The first `k` actions in order, stopping at the first failure. A run cancelled at an action
      boundary ends in one of these states too. */
  ghost function After(plan: seq<SyncAction>, k: nat, s: Sides, stamp: Stamps): Run
    requires k <= |plan|
  {
    if k == 0 then Run(s, true)
    else
      var r := After(plan, k - 1, s, stamp);
      if r.ok then Execute(plan[k - 1], r.sides, stamp) else r
  }

  // ----- the pointwise account of a run

  predicate Touches(a: SyncAction, d: Direction, p: string) {
    a.Mutates() && a.dir == d && a.path == p
  }

  /** What an action puts at its path, read off the trees the plan was made from. */
  function Effect(a: SyncAction, s0: Sides, stamp: Stamps): Option<Node> {
    match a.kind
    case Mkdir => Some(Dir)
    case Copy =>
      var from := NodeAt(s0.From(a.dir), a.path);
      if from.Some? && from.value.File? then Some(File(from.value.bytes, stamp(a.path))) else None
    case _ => None
  }

  function Put(t: Tree, p: string, n: Option<Node>): Tree {
    if n.Some? then t[p := n.value] else t - {p}
  }

  /** The trees with the first `k` actions' effects put at their own paths and nothing else changed. */
  ghost function Applied(plan: seq<SyncAction>, k: nat, s0: Sides, stamp: Stamps): Sides
    requires k <= |plan|
  {
    if k == 0 then s0
    else
      var s, a := Applied(plan, k - 1, s0, stamp), plan[k - 1];
      if a.Mutates() then s.WithTo(a.dir, Put(s.To(a.dir), a.path, Effect(a, s0, stamp))) else s
  }

  ghost predicate TouchedBefore(plan: seq<SyncAction>, k: nat, d: Direction, p: string)
    requires k <= |plan|
  {
    exists i :: 0 <= i < k && Touches(plan[i], d, p)
  }

  lemma {:induction false} AppliedUntouched(plan: seq<SyncAction>, k: nat, s0: Sides, stamp: Stamps, d: Direction,
                                            p: string)
    requires k <= |plan| && !TouchedBefore(plan, k, d, p)
    ensures NodeAt(Applied(plan, k, s0, stamp).To(d), p) == NodeAt(s0.To(d), p)
  {
    if k > 0 {
      assert !Touches(plan[k - 1], d, p);
      AppliedUntouched(plan, k - 1, s0, stamp, d, p);
    }
  }

  lemma {:induction false} AppliedTouched(plan: seq<SyncAction>, k: nat, s0: Sides, stamp: Stamps, i: nat)
    requires i < k <= |plan| && DistinctPaths(plan) && plan[i].Mutates()
    ensures NodeAt(Applied(plan, k, s0, stamp).To(plan[i].dir), plan[i].path) == Effect(plan[i], s0, stamp)
  {
    if i < k - 1 {
      AppliedTouched(plan, k - 1, s0, stamp, i);
    }
  }

  /** What every plan made from `s0` satisfies, whatever the mode: each action finds on the two sides
      what it was planned for, and the actions it relies on come earlier. */
  ghost predicate Grounded(plan: seq<SyncAction>, s0: Sides, ignored: string -> bool) {
    && DistinctPaths(plan)
    && (forall i :: 0 <= i < |plan| ==> GroundedAction(plan[i], s0, ignored))
    && (forall i, q | 0 <= i < |plan| && Creates(plan[i]) && Below(plan[i].path, q) && q !in s0.To(plan[i].dir) ::
          MadeBefore(plan, i, q))
    && (forall i, r | 0 <= i < |plan| && plan[i].kind == Delete && Below(r, plan[i].path)
                      && r in s0.To(plan[i].dir) && !ignored(r) ::
          DeletedBefore(plan, i, r))
  }

  predicate Creates(a: SyncAction) {
    a.kind == Mkdir || a.kind == Copy
  }

  ghost predicate GroundedAction(a: SyncAction, s0: Sides, ignored: string -> bool) {
    var to, from := NodeAt(s0.To(a.dir), a.path), NodeAt(s0.From(a.dir), a.path);
    && !ignored(a.path)
    && (a.kind == Mkdir ==> from == Some(Dir) && to == None)
    && (a.kind == Copy ==> from.Some? && from.value.File? && (to.Some? ==> to.value.File?))
    && (a.kind == Delete ==> from == None && to.Some?)
  }

  ghost predicate MadeBefore(plan: seq<SyncAction>, i: nat, q: string)
    requires i < |plan|
  {
    exists j :: 0 <= j < i && plan[j].kind == Mkdir && Touches(plan[j], plan[i].dir, q)
  }

  ghost predicate DeletedBefore(plan: seq<SyncAction>, i: nat, r: string)
    requires i < |plan|
  {
    exists j :: 0 <= j < i && plan[j].kind == Delete && Touches(plan[j], plan[i].dir, r)
  }

  /** Whether an action can succeed, decided by the trees the plan was made from: the adapters do not refuse its
      path, no file stands where a directory is needed, and no ignored entry keeps a directory from being removed. */
  ghost predicate Enabled(a: SyncAction, s0: Sides, ignored: string -> bool) {
    var t := s0.To(a.dir);
    && (a.Mutates() ==> !Refused(a.path))
    && (Creates(a) ==> !FileAbove(t, a.path))
    && (a.kind == Delete && a.path in t && t[a.path].Dir? ==> !HoldsIgnored(t, a.path, ignored))
  }

  ghost predicate HoldsIgnored(t: Tree, p: string, ignored: string -> bool) {
    exists r :: r in t && Below(r, p) && ignored(r)
  }

  /** Step `k` does what the original trees decided. */
  ghost predicate StepIs(plan: seq<SyncAction>, k: nat, s0: Sides, stamp: Stamps, ignored: string -> bool)
    requires k < |plan|
  {
    Execute(plan[k], Applied(plan, k, s0, stamp), stamp) ==
    if Enabled(plan[k], s0, ignored) then Run(Applied(plan, k + 1, s0, stamp), true)
    else Run(Applied(plan, k, s0, stamp), false)
  }

  /** On the way to a created path, the current tree has exactly the original files, and a directory
      at every level the original tree lacked. */
  lemma AboveCreated(plan: seq<SyncAction>, k: nat, s0: Sides, stamp: Stamps, ignored: string -> bool, q: string)
    requires k < |plan| && Sound(s0) && Grounded(plan, s0, ignored)
    requires Creates(plan[k]) && Below(plan[k].path, q)
    ensures var d := plan[k].dir;
            NodeAt(Applied(plan, k, s0, stamp).To(d), q) ==
            if q in s0.To(d) then Some(s0.To(d)[q]) else Some(Dir)
  {
    var a := plan[k];
    var d := a.dir;
    assert GroundedAction(a, s0, ignored);
    assert q in s0.From(d) && s0.From(d)[q].Dir?;
    if q in s0.To(d) {
      forall i | 0 <= i < k ensures !Touches(plan[i], d, q) {
        assert GroundedAction(plan[i], s0, ignored);
      }
      AppliedUntouched(plan, k, s0, stamp, d, q);
    } else {
      assert MadeBefore(plan, k, q);
      var j :| 0 <= j < k && plan[j].kind == Mkdir && Touches(plan[j], d, q);
      AppliedTouched(plan, k, s0, stamp, j);
    }
  }

  /** Paths are distinct, so both sides still show what the plan saw at a pending action's path. */
  lemma PendingUntouched(plan: seq<SyncAction>, k: nat, s0: Sides, stamp: Stamps, d: Direction)
    requires k < |plan| && DistinctPaths(plan)
    ensures NodeAt(Applied(plan, k, s0, stamp).To(d), plan[k].path) == NodeAt(s0.To(d), plan[k].path)
  {
    assert !TouchedBefore(plan, k, d, plan[k].path);
    AppliedUntouched(plan, k, s0, stamp, d, plan[k].path);
  }

  /** Nothing ever appears at a temporary name. */
  lemma NoTempKept(plan: seq<SyncAction>, k: nat, s0: Sides, stamp: Stamps, ignored: string -> bool, d: Direction,
                   p: string)
    requires k <= |plan| && Sound(s0) && Grounded(plan, s0, ignored)
    ensures p + TEMP_SUFFIX !in Applied(plan, k, s0, stamp).To(d)
  {
    var tmp := p + TEMP_SUFFIX;
    forall i | 0 <= i < k ensures !Touches(plan[i], d, tmp) {
      assert GroundedAction(plan[i], s0, ignored);
    }
    AppliedUntouched(plan, k, s0, stamp, d, tmp);
  }

  /** Above `p` the tree `t` has exactly what `t0` had, and a directory at every level that `t0` lacked. */
  ghost predicate LevelsReady(t: Tree, t0: Tree, p: string) {
    forall q :: Below(p, q) ==> q in t && t[q] == if q in t0 then t0[q] else Dir
  }

  /** Where the levels are ready a write changes its own path or nothing. */
  lemma ReadyWrites(t: Tree, t0: Tree, p: string, bytes: Bytes, modTime: int)
    requires LevelsReady(t, t0, p) && p != "" && p + TEMP_SUFFIX !in t && NodeAt(t, p) != Some(Dir)
    ensures FileAbove(t, p) <==> FileAbove(t0, p)
    ensures Write(t, p, bytes, modTime) ==
            if Refused(p) || FileAbove(t0, p) then Outcome(t, false) else Outcome(t[p := File(bytes, modTime)], true)
  {
    assert WithDirs(t, Ancestors(p)) == t;
    assert t - {p + TEMP_SUFFIX} == t;
  }

  /** So does making a directory where there is nothing. */
  lemma ReadyMakes(t: Tree, t0: Tree, p: string)
    requires LevelsReady(t, t0, p) && p != "" && p !in t
    ensures MkdirAll(t, p) == if Refused(p) || FileAbove(t0, p) then Outcome(t, false) else Outcome(t[p := Dir], true)
  {
    assert WithDirs(t, Ancestors(p) + {p}) == t[p := Dir];
  }

  lemma CreateReady(plan: seq<SyncAction>, k: nat, s0: Sides, stamp: Stamps, ignored: string -> bool)
    requires k < |plan| && Sound(s0) && Grounded(plan, s0, ignored) && Creates(plan[k])
    ensures LevelsReady(Applied(plan, k, s0, stamp).To(plan[k].dir), s0.To(plan[k].dir), plan[k].path)
  {
    forall q | Below(plan[k].path, q)
      ensures NodeAt(Applied(plan, k, s0, stamp).To(plan[k].dir), q) ==
              (if q in s0.To(plan[k].dir) then Some(s0.To(plan[k].dir)[q]) else Some(Dir))
    {
      AboveCreated(plan, k, s0, stamp, ignored, q);
    }
  }

  lemma CreateStep(plan: seq<SyncAction>, k: nat, s0: Sides, stamp: Stamps, ignored: string -> bool)
    requires k < |plan| && Sound(s0) && Grounded(plan, s0, ignored) && Creates(plan[k])
    ensures StepIs(plan, k, s0, stamp, ignored)
  {
    var a, s := plan[k], Applied(plan, k, s0, stamp);
    var d, p := a.dir, a.path;
    var t, t0 := s.To(d), s0.To(d);
    assert GroundedAction(a, s0, ignored);
    PendingUntouched(plan, k, s0, stamp, d);
    PendingUntouched(plan, k, s0, stamp, d.Flip());
    EntriesAreRelative(s0.From(d), p);
    CreateReady(plan, k, s0, stamp, ignored);
    NoTempKept(plan, k, s0, stamp, ignored, d, p);
    if a.kind == Mkdir {
      ReadyMakes(t, t0, p);
    } else {
      ReadyWrites(t, t0, p, s0.From(d)[p].bytes, stamp(p));
    }
  }

  /** By the turn of a deletion only the ignored entries below it are left. */
  lemma BelowDeleted(plan: seq<SyncAction>, k: nat, s0: Sides, stamp: Stamps, ignored: string -> bool, r: string)
    requires k < |plan| && Sound(s0) && Grounded(plan, s0, ignored) && plan[k].kind == Delete && Below(r, plan[k].path)
    ensures r in Applied(plan, k, s0, stamp).To(plan[k].dir) <==> r in s0.To(plan[k].dir) && ignored(r)
  {
    var d := plan[k].dir;
    assert GroundedAction(plan[k], s0, ignored);
    if TouchedBefore(plan, k, d, r) {
      var i :| 0 <= i < k && Touches(plan[i], d, r);
      assert GroundedAction(plan[i], s0, ignored);
      assert plan[k].path !in s0.From(d);
      AppliedTouched(plan, k, s0, stamp, i);
    } else {
      AppliedUntouched(plan, k, s0, stamp, d, r);
      assert r in s0.To(d) && !ignored(r) ==> DeletedBefore(plan, k, r);
    }
  }

  lemma DeleteStep(plan: seq<SyncAction>, k: nat, s0: Sides, stamp: Stamps, ignored: string -> bool)
    requires k < |plan| && Sound(s0) && Grounded(plan, s0, ignored) && plan[k].kind == Delete
    ensures StepIs(plan, k, s0, stamp, ignored)
  {
    var a, s := plan[k], Applied(plan, k, s0, stamp);
    var d, p := a.dir, a.path;
    var t := s.To(d);
    assert GroundedAction(a, s0, ignored);
    PendingUntouched(plan, k, s0, stamp, d);
    EntriesAreRelative(s0.To(d), p);
    forall r | Below(r, p) ensures r in t <==> r in s0.To(d) && ignored(r) {
      BelowDeleted(plan, k, s0, stamp, ignored, r);
    }
    assert Occupied(t, p) <==> HoldsIgnored(s0.To(d), p, ignored);
  }

  /** Every step either has exactly its own effect or fails and leaves both trees alone; which of the
      two was decided by the trees the plan was made from. */
  lemma StepExact(plan: seq<SyncAction>, k: nat, s0: Sides, stamp: Stamps, ignored: string -> bool)
    requires k < |plan| && Sound(s0) && Grounded(plan, s0, ignored)
    ensures StepIs(plan, k, s0, stamp, ignored)
  {
    if Creates(plan[k]) {
      CreateStep(plan, k, s0, stamp, ignored);
    } else if plan[k].kind == Delete {
      DeleteStep(plan, k, s0, stamp, ignored);
    }
  }

  ghost predicate EnabledUpTo(plan: seq<SyncAction>, k: nat, s0: Sides, ignored: string -> bool)
    requires k <= |plan|
  {
    forall i :: 0 <= i < k ==> Enabled(plan[i], s0, ignored)
  }

  /** The number of actions that run before the first one that cannot. */
  ghost function Reach(plan: seq<SyncAction>, k: nat, s0: Sides, ignored: string -> bool): (n: nat)
    requires k <= |plan|
    ensures n <= k && EnabledUpTo(plan, n, s0, ignored)
    ensures n < k ==> !Enabled(plan[n], s0, ignored)
  {
    if k == 0 then 0
    else
      var n := Reach(plan, k - 1, s0, ignored);
      if n == k - 1 && Enabled(plan[k - 1], s0, ignored) then k else n
  }

  lemma {:induction false} RunOfSteps(plan: seq<SyncAction>, k: nat, s0: Sides, stamp: Stamps, ignored: string -> bool)
    requires k <= |plan| && forall i :: 0 <= i < k ==> StepIs(plan, i, s0, stamp, ignored)
    ensures var n := Reach(plan, k, s0, ignored);
            After(plan, k, s0, stamp) == Run(Applied(plan, n, s0, stamp), n == k)
  {
    if k > 0 {
      RunOfSteps(plan, k - 1, s0, stamp, ignored);
      assert StepIs(plan, k - 1, s0, stamp, ignored);
    }
  }

  /** The exact outcome of a run cut after `k` actions. */
  lemma RunExact(plan: seq<SyncAction>, k: nat, s0: Sides, stamp: Stamps, ignored: string -> bool)
    requires k <= |plan| && Sound(s0) && Grounded(plan, s0, ignored)
    ensures var n := Reach(plan, k, s0, ignored);
            After(plan, k, s0, stamp) == Run(Applied(plan, n, s0, stamp), n == k)
  {
    forall i | 0 <= i < k ensures StepIs(plan, i, s0, stamp, ignored) {
      StepExact(plan, i, s0, stamp, ignored);
    }
    RunOfSteps(plan, k, s0, stamp, ignored);
  }

  /** A run succeeds exactly when every action could, judged by the trees the plan was made from. */
  lemma RunSucceeds(plan: seq<SyncAction>, s0: Sides, stamp: Stamps, ignored: string -> bool)
    requires Sound(s0) && Grounded(plan, s0, ignored)
    ensures After(plan, |plan|, s0, stamp).ok <==> EnabledUpTo(plan, |plan|, s0, ignored)
  {
    RunExact(plan, |plan|, s0, stamp, ignored);
  }

  /** When a deletion that can succeed on a local store has its turn, nothing is left below its path: the deep-first
      order has emptied it. */
  lemma DeleteFindsEmpty(plan: seq<SyncAction>, k: nat, s0: Sides, stamp: Stamps, ignored: string -> bool)
    requires k < |plan| && Sound(s0) && Grounded(plan, s0, ignored) && EnabledUpTo(plan, k + 1, s0, ignored)
    requires plan[k].kind == Delete
    ensures !Occupied(After(plan, k, s0, stamp).sides.To(plan[k].dir), plan[k].path)
  {
    assert GroundedAction(plan[k], s0, ignored);
    RunExact(plan, k, s0, stamp, ignored);
    ReachAll(plan, k, s0, ignored);
    DeleteStep(plan, k, s0, stamp, ignored);
    PendingUntouched(plan, k, s0, stamp, plan[k].dir);
    var d, p := plan[k].dir, plan[k].path;
    var t, t0 := Applied(plan, k, s0, stamp).To(d), s0.To(d);
    forall r | Below(r, p) ensures r !in t {
      BelowDeleted(plan, k, s0, stamp, ignored, r);
      assert r in t0 && ignored(r) ==> HoldsIgnored(t0, p, ignored);
    }
  }

  lemma ReachAll(plan: seq<SyncAction>, k: nat, s0: Sides, ignored: string -> bool)
    requires k <= |plan| && EnabledUpTo(plan, k, s0, ignored)
    ensures Reach(plan, k, s0, ignored) == k
  {
  }
}
