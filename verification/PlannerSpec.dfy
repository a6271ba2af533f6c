/** What a plan must contain and in which order (package `planner`). */
module PlannerSpec {
  import opened Domain
  import opened Paths
  import Diff
  import Conflict

  /** What planning depends on besides the two listings. */
  datatype Policy = Policy(mode: SyncMode, strategy: ConflictStrategy, ignored: string -> bool)

  /** Ignoring a directory ignores everything below it. */
  ghost predicate Closed(ignored: string -> bool) {
    forall p, q :: Below(p, q) && ignored(q) ==> ignored(p)
  }

  type Listing = map<string, FileInfo>

  function Lookup(m: Listing, p: string): Option<FileInfo> {
    if p in m then Some(m[p]) else None
  }

  /** The one-way decision for one path. */
  function OneWay(p: string, from: Option<FileInfo>, to: Option<FileInfo>, dir: Direction): (r: Option<SyncAction>)
    ensures r.Some? ==> r.value.path == p && r.value.dir == dir
  {
    if from.Some? then
      if to.None? then
        if from.value.IsDir() then Some(SyncAction(Mkdir, dir, p, from, None, DirMissing))
        else Some(SyncAction(Copy, dir, p, from, None, FileMissing))
      else if from.value.kind != to.value.kind then
        Some(SyncAction(ActionType.Conflict, dir, p, from, to, TypeMismatch))
      else if from.value.IsFile() && to.value.IsFile() && Diff.Compare(from, to) == Diff.FileModified then
        Some(SyncAction(Copy, dir, p, from, to, FileChanged))
      else None
    else if to.Some? then Some(SyncAction(Delete, dir, p, None, to, GoneFromSource))
    else None
  }

  /** The two-way decision for one path. */
  function TwoWayStep(strategy: ConflictStrategy, p: string, src: Option<FileInfo>,
                      tgt: Option<FileInfo>): (r: Option<SyncAction>)
    ensures r.Some? ==> r.value.path == p && r.value.kind != Delete
  {
    if src.Some? && tgt.None? then
      if src.value.IsDir() then Some(SyncAction(Mkdir, SourceToTarget, p, src, None, DirOnlyOnSource))
      else Some(SyncAction(Copy, SourceToTarget, p, src, None, FileOnlyOnSource))
    else if src.None? && tgt.Some? then
      if tgt.value.IsDir() then Some(SyncAction(Mkdir, TargetToSource, p, None, tgt, DirOnlyOnTarget))
      else Some(SyncAction(Copy, TargetToSource, p, None, tgt, FileOnlyOnTarget))
    else if src.Some? && tgt.Some? && src.value.kind != tgt.value.kind then
      Some(SyncAction(ActionType.Conflict, SourceToTarget, p, src, tgt, TypeMismatch))
    else if src.Some? && tgt.Some? && src.value.IsFile() && tgt.value.IsFile()
            && Diff.Compare(src, tgt) == Diff.FileModified then
      Some(Conflict.Resolve(strategy, p, src, tgt))
    else None
  }

  function DecideOn(pol: Policy, p: string, src: Option<FileInfo>, tgt: Option<FileInfo>): (r: Option<SyncAction>)
    ensures r.Some? ==> r.value.path == p && !pol.ignored(p)
  {
    if pol.ignored(p) then None
    else match pol.mode
      case OneWayPush => OneWay(p, src, tgt, SourceToTarget)
      case OneWayPull => OneWay(p, tgt, src, TargetToSource)
      case TwoWay => TwoWayStep(pol.strategy, p, src, tgt)
  }

  function Decide(pol: Policy, src: Listing, tgt: Listing, p: string): (r: Option<SyncAction>)
    ensures r.Some? ==> r.value.path == p
  {
    DecideOn(pol, p, Lookup(src, p), Lookup(tgt, p))
  }

  function TypeOrder(t: ActionType): int {
    match t
    case Mkdir => 1
    case Copy => 2
    case Delete => 3
    case Conflict => 4
    case Skip => 5
  }

  /** The comparator of `sortActions`. */
  predicate Less(a: SyncAction, b: SyncAction) {
    if a.kind != b.kind then TypeOrder(a.kind) < TypeOrder(b.kind)
    else if Depth(a.path) != Depth(b.path) then
      if a.kind == Delete then Depth(a.path) > Depth(b.path) else Depth(a.path) < Depth(b.path)
    else Precedes(a.path, b.path)
  }

  ghost predicate Sorted(plan: seq<SyncAction>) {
    forall i, j :: 0 <= i < j < |plan| ==> Less(plan[i], plan[j])
  }

  ghost predicate DistinctPaths(plan: seq<SyncAction>) {
    forall i, j :: 0 <= i < j < |plan| ==> plan[i].path != plan[j].path
  }

  /** `plan` holds exactly the decisions for the listed paths, in the comparator's order. */
  ghost predicate IsPlan(plan: seq<SyncAction>, pol: Policy, src: Listing, tgt: Listing) {
    && Sorted(plan)
    && (forall a :: a in plan ==> Decide(pol, src, tgt, a.path) == Some(a))
    && (forall p :: Decide(pol, src, tgt, p).Some? ==> Decide(pol, src, tgt, p).value in plan)
  }

  /** A decision is about the path it was asked for and never about an unlisted one. */
  lemma DecisionPath(pol: Policy, src: Listing, tgt: Listing, p: string)
    ensures Decide(pol, src, tgt, p).Some? ==>
              Decide(pol, src, tgt, p).value.path == p && (p in src || p in tgt)
  {
  }

  // ----- the comparator is a strict total order on actions with different paths

  lemma LessStrict(a: SyncAction, b: SyncAction)
    requires Less(a, b)
    ensures a != b && !Less(b, a)
  {
    if a.kind == b.kind && Depth(a.path) == Depth(b.path) {
      PrecedesStrict(a.path, b.path);
    }
  }

  lemma LessTransitive(a: SyncAction, b: SyncAction, c: SyncAction)
    requires Less(a, b) && Less(b, c)
    ensures Less(a, c)
  {
    if a.kind == b.kind == c.kind && Depth(a.path) == Depth(b.path) == Depth(c.path) {
      PrecedesTransitive(a.path, b.path, c.path);
    }
  }

  lemma LessTotal(a: SyncAction, b: SyncAction)
    requires a.path != b.path
    ensures Less(a, b) || Less(b, a)
  {
    PrecedesTotal(a.path, b.path);
  }

  lemma EmptyOrMember(s: seq<SyncAction>)
    ensures s == [] || exists a :: a in s
  {
    if s != [] { assert s[0] in s; }
  }

  lemma {:induction false} SortedUnique(a: seq<SyncAction>, b: seq<SyncAction>)
    requires Sorted(a) && Sorted(b)
    requires forall x :: x in a <==> x in b
    ensures a == b
    decreases |a|
  {
    if a == [] {
      EmptyOrMember(b);
    } else {
      assert a[0] in a;
      SortedHeads(a, b);
      forall x ensures x in a[1..] <==> x in b[1..] {
        SortedTail(a, x);
        SortedTail(b, x);
      }
      SortedUnique(a[1..], b[1..]);
      assert a == [a[0]] + a[1..] && b == [b[0]] + b[1..];
    }
  }

  lemma SortedHeads(a: seq<SyncAction>, b: seq<SyncAction>)
    requires Sorted(a) && Sorted(b) && a != [] && b != []
    requires a[0] in b && b[0] in a
    ensures a[0] == b[0]
  {
    var i :| 0 <= i < |b| && b[i] == a[0];
    var j :| 0 <= j < |a| && a[j] == b[0];
    if i > 0 && j > 0 {
      LessStrict(b[0], a[0]);
    }
  }

  lemma SortedTail(a: seq<SyncAction>, x: SyncAction)
    requires Sorted(a) && a != []
    ensures x in a[1..] <==> x in a && x != a[0]
  {
    if x in a[1..] {
      var i :| 0 <= i < |a[1..]| && a[1..][i] == x;
      LessStrict(a[0], a[i + 1]);
    }
    if x in a && x != a[0] {
      var i :| 0 <= i < |a| && a[i] == x;
      assert a[1..][i - 1] == x;
    }
  }

  /** The action list is a function of the two listings and the policy: neither the order in which
      the maps are walked nor the choices of an unstable sort can show. */
  lemma PlanDeterministic(a: seq<SyncAction>, b: seq<SyncAction>, pol: Policy, src: Listing, tgt: Listing)
    requires IsPlan(a, pol, src, tgt) && IsPlan(b, pol, src, tgt)
    ensures a == b
  {
    SortedUnique(a, b);
  }

  /** Each path yields at most one action. */
  lemma PathsDistinct(plan: seq<SyncAction>, pol: Policy, src: Listing, tgt: Listing, i: nat, j: nat)
    requires IsPlan(plan, pol, src, tgt) && i < |plan| && j < |plan| && plan[i].path == plan[j].path
    ensures i == j
  {
    assert plan[i] == plan[j];
    if i < j { LessStrict(plan[i], plan[j]); }
    if j < i { LessStrict(plan[j], plan[i]); }
  }

  /** Positions of two members follow the comparator. */
  lemma OrderOfMembers(plan: seq<SyncAction>, x: SyncAction, i: nat) returns (j: nat)
    requires Sorted(plan) && i < |plan| && x in plan && Less(x, plan[i])
    ensures j < i && plan[j] == x
  {
    j :| 0 <= j < |plan| && plan[j] == x;
    LessStrict(x, plan[i]);
  }

  /** The phases of a sorted plan: directories before files before deletions before reports, a directory before what
      is made below it, and a deletion after the deletions below it. */
  lemma PhasesInOrder(plan: seq<SyncAction>, i: nat, j: nat)
    requires Sorted(plan) && i < j < |plan|
    ensures plan[j].kind == Mkdir ==> plan[i].kind == Mkdir
    ensures plan[j].kind == Copy ==> plan[i].kind == Mkdir || plan[i].kind == Copy
    ensures plan[i].kind == Skip ==> plan[j].kind == Skip
    ensures plan[i].kind == ActionType.Conflict ==> !plan[j].Mutates()
    ensures plan[i].kind == plan[j].kind == Mkdir ==> !Below(plan[i].path, plan[j].path)
    ensures plan[i].kind == plan[j].kind == Delete ==> !Below(plan[j].path, plan[i].path)
  {
    assert Less(plan[i], plan[j]);
    if Below(plan[i].path, plan[j].path) { DepthBelow(plan[i].path, plan[j].path); }
    if Below(plan[j].path, plan[i].path) { DepthBelow(plan[j].path, plan[i].path); }
  }
}
