/** Which endpoint is called the source does not matter: pull is push with the sides exchanged, and
    keeping the newest version treats the two sides alike. */
module Duality {
  import opened Domain
  import opened Trees
  import opened PlannerSpec
  import opened Execution
  import opened Sync
  import Diff
  import Conflict

  function Swap(s: Sides): Sides { Sides(s.tgt, s.src) }

  function SwapSums(sums: Sums): Sums { Sums(sums.tgt, sums.src) }

  /** The same action in the other direction. */
  function Turn(a: SyncAction): SyncAction { a.(dir := a.dir.Flip()) }

  function Map(plan: seq<SyncAction>, f: SyncAction -> SyncAction): seq<SyncAction> {
    seq(|plan|, i requires 0 <= i < |plan| => f(plan[i]))
  }

  lemma TurnedStep(a: SyncAction, b: SyncAction, s: Sides, stamp: Stamps)
    requires b.kind == a.kind && b.path == a.path && (a.Mutates() ==> b.dir == a.dir.Flip())
    ensures var r, t := Execute(a, s, stamp), Execute(b, Swap(s), stamp); t.ok == r.ok && t.sides == Swap(r.sides)
  {
  }

  /** Turning every action exchanges the two results. */
  lemma {:induction false} TurnedRun(plan: seq<SyncAction>, f: SyncAction -> SyncAction, k: nat, s: Sides,
                                     stamp: Stamps)
    requires k <= |plan|
    requires forall a :: f(a).kind == a.kind && f(a).path == a.path && (a.Mutates() ==> f(a).dir == a.dir.Flip())
    ensures var r, t := After(plan, k, s, stamp), After(Map(plan, f), k, Swap(s), stamp);
            t.ok == r.ok && t.sides == Swap(r.sides)
  {
    if k > 0 {
      TurnedRun(plan, f, k - 1, s, stamp);
      assert Map(plan, f)[k - 1] == f(plan[k - 1]);
      TurnedStep(plan[k - 1], f(plan[k - 1]), After(plan, k - 1, s, stamp).sides, stamp);
    }
  }

  /** The comparator looks at kinds and paths only. */
  lemma MappedSorted(plan: seq<SyncAction>, f: SyncAction -> SyncAction)
    requires Sorted(plan) && forall a :: f(a).kind == a.kind && f(a).path == a.path
    ensures Sorted(Map(plan, f))
  {
  }

  /** The plan of a pull is, action by action, the plan of the push with the endpoints exchanged, and it
      leaves the endpoints exchanged. */
  lemma PullIsPush(pull: seq<SyncAction>, push: seq<SyncAction>, k: nat, strategy: ConflictStrategy,
                   ignored: string -> bool, s: Sides, sums: Sums, stamp: Stamps)
    requires Planned(pull, Policy(OneWayPull, strategy, ignored), s, sums)
    requires Planned(push, Policy(OneWayPush, strategy, ignored), Swap(s), SwapSums(sums))
    ensures push == Map(pull, Turn)
    ensures k <= |pull| ==>
              var r, t := After(pull, k, s, stamp), After(push, k, Swap(s), stamp);
              t.ok == r.ok && t.sides == Swap(r.sides)
  {
    var pol, pol' := Policy(OneWayPull, strategy, ignored), Policy(OneWayPush, strategy, ignored);
    var turned := Map(pull, Turn);
    forall p ensures DecideNodes(pol', Swap(s), SwapSums(sums), p) ==
                     (var d := DecideNodes(pol, s, sums, p); if d.None? then None else Some(Turn(d.value)))
    {
      TurnedDecision(strategy, ignored, s, sums, p);
    }
    MappedSorted(pull, Turn);
    forall a | a in turned ensures DecideNodes(pol', Swap(s), SwapSums(sums), a.path) == Some(a) {
      var i :| 0 <= i < |turned| && turned[i] == a;
      assert pull[i] in pull && DecideNodes(pol, s, sums, pull[i].path) == Some(pull[i]);
    }
    forall p | DecideNodes(pol', Swap(s), SwapSums(sums), p).Some?
      ensures DecideNodes(pol', Swap(s), SwapSums(sums), p).value in turned
    {
      var i := PlannedIndex(pull, pol, s, sums, p);
      assert turned[i] == Turn(pull[i]);
    }
    PlannedIntro(turned, pol', Swap(s), SwapSums(sums));
    PlannedUnique(push, turned, pol', Swap(s), SwapSums(sums));
    if k <= |pull| { TurnedRun(pull, Turn, k, s, stamp); }
  }

  lemma TurnedDecision(strategy: ConflictStrategy, ignored: string -> bool, s: Sides, sums: Sums, p: string)
    ensures DecideNodes(Policy(OneWayPush, strategy, ignored), Swap(s), SwapSums(sums), p) ==
            (var d := DecideNodes(Policy(OneWayPull, strategy, ignored), s, sums, p);
             if d.None? then None else Some(Turn(d.value)))
  {
  }

  // ----- keep_newest

  function SwapReason(r: Reason): Reason {
    match r
    case DirOnlyOnSource => DirOnlyOnTarget
    case DirOnlyOnTarget => DirOnlyOnSource
    case FileOnlyOnSource => FileOnlyOnTarget
    case FileOnlyOnTarget => FileOnlyOnSource
    case SourceNewer => TargetNewer
    case TargetNewer => SourceNewer
    case _ => r
  }

  /** The action the other side's point of view asks for; conflicts and skips always point at the target. */
  function Reflect(a: SyncAction): SyncAction {
    SyncAction(a.kind, if a.Mutates() then a.dir.Flip() else a.dir, a.path, a.targetInfo, a.sourceInfo,
               SwapReason(a.reason))
  }

  lemma ReflectedFiles(p: string, x: FileInfo, y: FileInfo)
    requires x.IsFile() && y.IsFile()
    ensures Diff.Compare(Some(x), Some(y)) == Diff.FileModified <==> Diff.Compare(Some(y), Some(x)) == Diff.FileModified
    ensures Diff.Compare(Some(x), Some(y)) == Diff.FileModified ==>
              Conflict.Resolve(KeepNewest, p, Some(y), Some(x)) ==
              Reflect(Conflict.Resolve(KeepNewest, p, Some(x), Some(y)))
  {
    Diff.CompareSymmetric(Some(x), Some(y));
    if Diff.Compare(Some(x), Some(y)) == Diff.FileModified {
      Conflict.ResolveFromPlanner(KeepNewest, p, x, y);
    }
  }

  lemma ReflectedDecision(ignored: string -> bool, s: Sides, sums: Sums, p: string)
    ensures var pol := Policy(TwoWay, KeepNewest, ignored);
            DecideNodes(pol, Swap(s), SwapSums(sums), p) ==
            (var d := DecideNodes(pol, s, sums, p); if d.None? then None else Some(Reflect(d.value)))
  {
    if p in s.src && p in s.tgt && s.src[p].File? && s.tgt[p].File? {
      ReflectedFiles(p, Info(p, s.src[p], sums.src), Info(p, s.tgt[p], sums.tgt));
    }
  }

  /** Under keep_newest, exchanging the endpoints gives the same actions in the same order with the copies
      and directories going the other way, and exchanges the results at every point of the run. */
  lemma KeepNewestSymmetric(plan: seq<SyncAction>, swapped: seq<SyncAction>, k: nat, ignored: string -> bool, s: Sides,
                            sums: Sums, stamp: Stamps)
    requires Planned(plan, Policy(TwoWay, KeepNewest, ignored), s, sums)
    requires Planned(swapped, Policy(TwoWay, KeepNewest, ignored), Swap(s), SwapSums(sums))
    ensures swapped == Map(plan, Reflect)
    ensures k <= |plan| ==>
              var r, t := After(plan, k, s, stamp), After(swapped, k, Swap(s), stamp);
              t.ok == r.ok && t.sides == Swap(r.sides)
  {
    var pol := Policy(TwoWay, KeepNewest, ignored);
    var reflected := Map(plan, Reflect);
    forall p ensures DecideNodes(pol, Swap(s), SwapSums(sums), p) ==
                     (var d := DecideNodes(pol, s, sums, p); if d.None? then None else Some(Reflect(d.value)))
    {
      ReflectedDecision(ignored, s, sums, p);
    }
    MappedSorted(plan, Reflect);
    forall a | a in reflected ensures DecideNodes(pol, Swap(s), SwapSums(sums), a.path) == Some(a) {
      var i :| 0 <= i < |reflected| && reflected[i] == a;
      assert plan[i] in plan && DecideNodes(pol, s, sums, plan[i].path) == Some(plan[i]);
    }
    forall p | DecideNodes(pol, Swap(s), SwapSums(sums), p).Some?
      ensures DecideNodes(pol, Swap(s), SwapSums(sums), p).value in reflected
    {
      var i := PlannedIndex(plan, pol, s, sums, p);
      assert reflected[i] == Reflect(plan[i]);
    }
    PlannedIntro(reflected, pol, Swap(s), SwapSums(sums));
    PlannedUnique(swapped, reflected, pol, Swap(s), SwapSums(sums));
    if k <= |plan| { TurnedRun(plan, Reflect, k, s, stamp); }
  }
}
