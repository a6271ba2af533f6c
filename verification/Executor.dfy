/** From two stores to a plan (`Plan` of package `rule`). */
module Executor {
  import opened Domain
  import opened Trees
  import opened Adapter
  import opened PlannerSpec
  import opened Planner
  import opened Walk
  import opened Execution
  import opened Sync
  import Ignore

  function Prune(m: Listing, ignored: string -> bool): Listing {
    map p | p in m && !ignored(p) :: m[p]
  }

  /** Planning from the pruned listings is planning from the full ones. */
  lemma PrunedPlan(plan: seq<SyncAction>, pol: Policy, src: Listing, tgt: Listing)
    ensures IsPlan(plan, pol, Prune(src, pol.ignored), Prune(tgt, pol.ignored)) <==> IsPlan(plan, pol, src, tgt)
  {
    forall p ensures Decide(pol, Prune(src, pol.ignored), Prune(tgt, pol.ignored), p) == Decide(pol, src, tgt, p) {
    }
  }

  /** A map from path to metadata, as filled by the listing loop. */
  method ToMap(files: seq<FileInfo>) returns (m: Listing)
    requires forall i, j :: 0 <= i < j < |files| ==> files[i].path != files[j].path
    ensures forall p :: p in m <==> Shows(files, p)
    ensures forall i :: 0 <= i < |files| ==> files[i].path in m && m[files[i].path] == files[i]
  {
    m := map[];
    for i := 0 to |files|
      invariant forall p :: p in m <==> Shows(files[..i], p)
      invariant forall j :: 0 <= j < i ==> files[j].path in m && m[files[j].path] == files[j]
    {
      m := m[files[i].path := files[i]];
      assert files[..i + 1] == files[..i] + [files[i]];
      forall p ensures Shows(files[..i + 1], p) <==> Shows(files[..i], p) || p == files[i].path {
        assert [files[i]][0].path == files[i].path && Shows([files[i]], files[i].path);
        if Shows(files[..i], p) || p == files[i].path { ShowsMore(files[..i], [files[i]], p); }
      }
    }
    assert files[..|files|] == files;
  }

  lemma WalkedMap(files: seq<FileInfo>, m: Listing, t: Tree, sum: Digest, ignored: string -> bool)
    requires WellFormed(t) && Walked(files, Region(t, ""), "", t, sum, ignored)
    requires forall p :: p in m <==> Shows(files, p)
    requires forall i :: 0 <= i < |files| ==> files[i].path in m && m[files[i].path] == files[i]
    ensures m == Prune(ListTree(t, sum), ignored)
  {
  }

  /** Listing one of the two endpoints fails. */
  ghost predicate PlanFails(s: Sides, ignored: string -> bool) {
    Unlistable(s.src, "", ignored) || Unlistable(s.tgt, "", ignored)
  }

  /** Planning fails exactly if one of the trees has a directory whose path starts with two dots and is not ignored. */
  lemma PlanFailsMeans(s: Sides, ignored: string -> bool)
    requires WellFormed(s.src) && WellFormed(s.tgt)
    ensures PlanFails(s, ignored) <==>
            exists p :: && !ignored(p) && |p| > 1 && p[0] == '.' && p[1] == '.'
                        && ((p in s.src && s.src[p].Dir?) || (p in s.tgt && s.tgt[p].Dir?))
  {
    forall t: Tree, p | (t == s.src || t == s.tgt) && p in t
      ensures Under(p, "") && (RefusedDir(t, p, ignored) <==> !ignored(p) && t[p].Dir? && |p| > 1 && p[..2] == "..")
    {
      EntriesAreRelative(t, p);
    }
  }

  method Plan(rule: Rule, source: LocalAdapter, target: LocalAdapter, os: Ignore.Platform)
    returns (planned: Option<SyncPlan>)
    requires WellFormed(source.tree) && WellFormed(target.tree)
    ensures planned.None? <==>
              PlanFails(Sides(source.tree, target.tree), Ignore.IgnoredBy(rule.ignorePatterns, os))
    ensures planned.Some? ==>
              && fresh(planned.value)
              && Finished(planned.value, rule, PolicyOf(rule, rule.mode, os),
                          ListTree(source.tree, source.sum), ListTree(target.tree, target.sum))
  {
    var sourceFiles := ListAllFiles(source, "", rule.ignorePatterns, os);
    if sourceFiles.None? { return None; }
    var targetFiles := ListAllFiles(target, "", rule.ignorePatterns, os);
    if targetFiles.None? { return None; }
    var sourceMap := ToMap(sourceFiles.value);
    var targetMap := ToMap(targetFiles.value);
    ghost var pol := PolicyOf(rule, rule.mode, os);
    WalkedMap(sourceFiles.value, sourceMap, source.tree, source.sum, pol.ignored);
    WalkedMap(targetFiles.value, targetMap, target.tree, target.sum, pol.ignored);
    var plan;
    match rule.mode {
      case OneWayPush => plan := PlanOneWay(sourceMap, targetMap, rule, SourceToTarget, os);
      case OneWayPull => plan := PlanOneWay(targetMap, sourceMap, rule, TargetToSource, os);
      case TwoWay => plan := PlanTwoWay(sourceMap, targetMap, rule, os);
    }
    PrunedPlan(plan.actions, pol, ListTree(source.tree, source.sum), ListTree(target.tree, target.sum));
    return Some(plan);
  }
}
