/** The planner's loops over listings and its in-place sort, proved against `PlannerSpec`. */
module Planner {
  import opened Domain
  import opened Paths
  import opened PlannerSpec
  import Diff
  import Conflict
  import Ignore

  class SyncPlan {
    var ruleName: string
    var actions: seq<SyncAction>
    var conflicts: seq<SyncAction>
    var stats: Stats

    constructor (ruleName: string)
      ensures this.ruleName == ruleName && actions == [] && conflicts == [] && stats == NO_STATS
    {
      this.ruleName := ruleName;
      actions, conflicts, stats := [], [], NO_STATS;
    }
  }

  // ----- statistics

  const NO_STATS := Stats(0, 0, 0, 0, 0, 0)

  function ActionBytes(a: SyncAction): nat {
    if a.sourceInfo.Some? then a.sourceInfo.value.size
    else if a.targetInfo.Some? then a.targetInfo.value.size else 0
  }

  /** How many actions are of a kind. */
  function CountKind(actions: seq<SyncAction>, kind: ActionType): nat {
    if actions == [] then 0
    else CountKind(actions[..|actions| - 1], kind) + if actions[|actions| - 1].kind == kind then 1 else 0
  }

  /** The bytes announced for all copies: what `ActionBytes` says of them, whichever side is read. */
  function CopyBytes(actions: seq<SyncAction>): nat {
    if actions == [] then 0
    else
      var last := actions[|actions| - 1];
      CopyBytes(actions[..|actions| - 1]) + if last.kind == Copy then ActionBytes(last) else 0
  }

  function OfKind(actions: seq<SyncAction>, kind: ActionType): seq<SyncAction> {
    if actions == [] then []
    else
      var last := actions[|actions| - 1];
      OfKind(actions[..|actions| - 1], kind) + if last.kind == kind then [last] else []
  }

  function StatsOf(actions: seq<SyncAction>): Stats {
    Stats(|actions|, CountKind(actions, Copy), CountKind(actions, Delete), CountKind(actions, Mkdir),
          CountKind(actions, ActionType.Conflict), CopyBytes(actions))
  }

  /** Every action is counted under exactly one kind, and the conflict list is as long as its counter. */
  lemma {:induction false} StatsPartition(actions: seq<SyncAction>)
    ensures var s := StatsOf(actions);
            s.totalFiles == s.filesToCopy + s.filesToDelete + s.dirsToCreate + s.conflicts + CountKind(actions, Skip)
    ensures |OfKind(actions, ActionType.Conflict)| == StatsOf(actions).conflicts
  {
    if actions != [] { StatsPartition(actions[..|actions| - 1]); }
  }

  /** Counters of a prefix never exceed those of the whole. */
  lemma {:induction false} StatsMonotone(actions: seq<SyncAction>, n: nat)
    requires n <= |actions|
    ensures CountKind(actions[..n], Copy) <= CountKind(actions, Copy)
    ensures CopyBytes(actions[..n]) <= CopyBytes(actions)
  {
    if n < |actions| {
      var init := actions[..|actions| - 1];
      assert init[..n] == actions[..n];
      StatsMonotone(init, n);
    } else {
      assert actions[..n] == actions;
    }
  }

  method CalculateStats(plan: SyncPlan)
    requires plan.stats == NO_STATS && plan.conflicts == []
    modifies plan`stats, plan`conflicts
    ensures plan.stats == StatsOf(plan.actions)
    ensures plan.conflicts == OfKind(plan.actions, ActionType.Conflict)
  {
    for i := 0 to |plan.actions|
      invariant plan.stats == StatsOf(plan.actions[..i])
      invariant plan.conflicts == OfKind(plan.actions[..i], ActionType.Conflict)
    {
      var action := plan.actions[i];
      assert plan.actions[..i + 1][..i] == plan.actions[..i];
      plan.stats := plan.stats.(totalFiles := plan.stats.totalFiles + 1);
      match action.kind {
        case Copy =>
          plan.stats := plan.stats.(filesToCopy := plan.stats.filesToCopy + 1);
          if action.sourceInfo.Some? {
            plan.stats := plan.stats.(bytesToSync := plan.stats.bytesToSync + action.sourceInfo.value.size);
          } else if action.targetInfo.Some? {
            plan.stats := plan.stats.(bytesToSync := plan.stats.bytesToSync + action.targetInfo.value.size);
          }
        case Delete =>
          plan.stats := plan.stats.(filesToDelete := plan.stats.filesToDelete + 1);
        case Mkdir =>
          plan.stats := plan.stats.(dirsToCreate := plan.stats.dirsToCreate + 1);
        case Conflict =>
          plan.stats := plan.stats.(conflicts := plan.stats.conflicts + 1);
          plan.conflicts := plan.conflicts + [action];
        case Skip =>
      }
    }
    assert plan.actions[..|plan.actions|] == plan.actions;
  }

  // ----- sorting

  /** Not-after is transitive, so the comparator is fit for sorting. */
  lemma NotAfterTransitive(a: SyncAction, b: SyncAction, c: SyncAction)
    requires !Less(b, a) && !Less(c, b)
    ensures !Less(c, a)
  {
    if a.kind == b.kind == c.kind && Depth(a.path) == Depth(b.path) == Depth(c.path) && Less(c, a) {
      PrecedesTotal(b.path, c.path);
      if b.path != c.path { PrecedesTransitive(b.path, c.path, a.path); }
    }
  }

  /** No action comes after a later one. */
  ghost predicate InOrder(actions: seq<SyncAction>) {
    forall x, y :: 0 <= x < y < |actions| ==> !Less(actions[y], actions[x])
  }

  /** In order but for the action at `j`, which is no later than anything behind it. */
  ghost predicate InOrderBut(actions: seq<SyncAction>, j: nat) {
    forall x, y :: 0 <= x < y < |actions| && y != j ==> !Less(actions[y], actions[x])
  }

  lemma SwapKeepsOrder(was: seq<SyncAction>, j: nat)
    requires 0 < j < |was| && InOrderBut(was, j) && Less(was[j], was[j - 1])
    ensures InOrderBut(was[j := was[j - 1]][j - 1 := was[j]], j - 1)
  {
    LessStrict(was[j], was[j - 1]);
  }

  lemma SettledInOrder(actions: seq<SyncAction>, j: nat)
    requires j < |actions| && InOrderBut(actions, j) && (j > 0 ==> !Less(actions[j], actions[j - 1]))
    ensures InOrder(actions)
  {
    forall x | 0 <= x < j ensures !Less(actions[j], actions[x]) {
      if x < j - 1 { NotAfterTransitive(actions[x], actions[j - 1], actions[j]); }
    }
  }

  lemma SwapKeepsMembers<T>(was: seq<T>, j: nat)
    requires 0 < j < |was|
    ensures multiset(was[j := was[j - 1]][j - 1 := was[j]]) == multiset(was)
  {
  }

  /** Moves the action at `i` forward to its place among the ordered ones before it. */
  method Insert(actions: array<SyncAction>, i: nat)
    requires i < actions.Length && InOrder(actions[..i])
    modifies actions
    ensures multiset(actions[..]) == multiset(old(actions[..])) && InOrder(actions[..i + 1])
  {
    var j: nat := i;
    while j > 0 && Less(actions[j], actions[j - 1])
      invariant j <= i
      invariant multiset(actions[..]) == multiset(old(actions[..]))
      invariant InOrderBut(actions[..i + 1], j)
    {
      ghost var was := actions[..];
      SwapKeepsMembers(was, j);
      SwapKeepsOrder(actions[..i + 1], j);
      actions[j], actions[j - 1] := actions[j - 1], actions[j];
      assert actions[..] == was[j := was[j - 1]][j - 1 := was[j]];
      assert actions[..i + 1] == was[..i + 1][j := was[j - 1]][j - 1 := was[j]];
      j := j - 1;
    }
    SettledInOrder(actions[..i + 1], j);
  }

  method SortActions(actions: array<SyncAction>)
    modifies actions
    ensures multiset(actions[..]) == multiset(old(actions[..])) && InOrder(actions[..])
  {
    for i := 0 to actions.Length
      invariant multiset(actions[..]) == multiset(old(actions[..])) && InOrder(actions[..i])
    {
      Insert(actions, i);
    }
    assert actions[..actions.Length] == actions[..];
  }

  lemma {:induction false} CountsAtMostOne(actions: seq<SyncAction>, a: SyncAction)
    requires DistinctPaths(actions)
    ensures multiset(actions)[a] <= 1
  {
    if actions != [] {
      var n := |actions| - 1;
      CountsAtMostOne(actions[..n], a);
      assert actions == actions[..n] + [actions[n]];
      assert a == actions[n] ==> a !in actions[..n];
    }
  }

  lemma TwicePresent<T>(s: seq<T>, x: nat, y: nat)
    requires x < y < |s| && s[x] == s[y]
    ensures multiset(s)[s[x]] >= 2
  {
    assert s == s[..y] + s[y..];
    assert s[..y][x] == s[x] && s[y..][0] == s[x];
    assert s[x] in multiset(s[..y]) && s[x] in multiset(s[y..]);
  }

  lemma SamePathSameAction(actions: seq<SyncAction>, a: SyncAction, b: SyncAction)
    requires DistinctPaths(actions) && a in actions && b in actions && a.path == b.path
    ensures a == b
  {
  }

  lemma SameMembers(before: seq<SyncAction>, after: seq<SyncAction>)
    requires multiset(before) == multiset(after)
    ensures forall a :: a in after <==> a in before
  {
    assert forall a :: a in after <==> a in multiset(after);
    assert forall a :: a in before <==> a in multiset(before);
  }

  /** Whatever permutation the sort produced, it is strictly ordered. */
  lemma SortedPermutation(before: seq<SyncAction>, after: seq<SyncAction>)
    requires DistinctPaths(before) && multiset(before) == multiset(after)
    requires InOrder(after)
    ensures Sorted(after)
    ensures forall a :: a in after <==> a in before
  {
    SameMembers(before, after);
    forall x, y | 0 <= x < y < |after| ensures Less(after[x], after[y]) {
      CountsAtMostOne(before, after[x]);
      if after[x] == after[y] { TwicePresent(after, x, y); }
      if after[x].path == after[y].path { SamePathSameAction(before, after[x], after[y]); }
      LessTotal(after[x], after[y]);
    }
  }

  // ----- the planning loops

  /** `actions` are the decisions for the paths handled so far. */
  ghost predicate Decided(actions: seq<SyncAction>, done: set<string>, pol: Policy, src: Listing, tgt: Listing) {
    && DistinctPaths(actions)
    && (forall a :: a in actions ==> a.path in done && Decide(pol, src, tgt, a.path) == Some(a))
    && (forall p :: p in done && Decide(pol, src, tgt, p).Some? ==> Decide(pol, src, tgt, p).value in actions)
  }

  lemma DecidedNext(actions: seq<SyncAction>, done: set<string>, pol: Policy, src: Listing, tgt: Listing, path: string,
                    grown: seq<SyncAction>)
    requires Decided(actions, done, pol, src, tgt) && path !in done
    requires var d := Decide(pol, src, tgt, path); grown == actions + if d.Some? then [d.value] else []
    ensures Decided(grown, done + {path}, pol, src, tgt)
  {
  }

  lemma DecidedAll(actions: seq<SyncAction>, sorted: seq<SyncAction>, done: set<string>, pol: Policy, src: Listing,
                   tgt: Listing)
    requires Decided(actions, done, pol, src, tgt) && src.Keys + tgt.Keys <= done
    requires multiset(actions) == multiset(sorted)
    requires InOrder(sorted)
    ensures IsPlan(sorted, pol, src, tgt)
  {
    SortedPermutation(actions, sorted);
    forall p | Decide(pol, src, tgt, p).Some? ensures Decide(pol, src, tgt, p).value in sorted {
      DecisionPath(pol, src, tgt, p);
    }
  }

  /** What a finished plan object holds. */
  ghost predicate Finished(plan: SyncPlan, rule: Rule, pol: Policy, src: Listing, tgt: Listing)
    reads plan
  {
    && plan.ruleName == rule.name
    && IsPlan(plan.actions, pol, src, tgt)
    && plan.stats == StatsOf(plan.actions)
    && plan.conflicts == OfKind(plan.actions, ActionType.Conflict)
  }

  /** Sort, then count. */
  method Finish(plan: SyncPlan, ghost done: set<string>, ghost pol: Policy, ghost src: Listing, ghost tgt: Listing)
    requires Decided(plan.actions, done, pol, src, tgt) && src.Keys + tgt.Keys <= done
    requires plan.stats == NO_STATS && plan.conflicts == []
    modifies plan
    ensures plan.ruleName == old(plan.ruleName)
    ensures IsPlan(plan.actions, pol, src, tgt)
    ensures plan.stats == StatsOf(plan.actions) && plan.conflicts == OfKind(plan.actions, ActionType.Conflict)
  {
    var unsorted := plan.actions;
    var slice := new SyncAction[|unsorted|](i requires 0 <= i < |unsorted| => unsorted[i]);
    assert slice[..] == unsorted;
    SortActions(slice);
    plan.actions := slice[..];
    DecidedAll(unsorted, plan.actions, done, pol, src, tgt);
    CalculateStats(plan);
  }

  ghost function PolicyOf(rule: Rule, mode: SyncMode, os: Ignore.Platform): Policy {
    Policy(mode, rule.strategy, Ignore.IgnoredBy(rule.ignorePatterns, os))
  }

  ghost function SourceOf(from: Listing, to: Listing, dir: Direction): Listing {
    if dir == SourceToTarget then from else to
  }

  ghost function OneWayPolicy(rule: Rule, dir: Direction, os: Ignore.Platform): Policy {
    PolicyOf(rule, if dir == SourceToTarget then OneWayPush else OneWayPull, os)
  }

  /** The decision the first loop takes for a path of the sending side. */
  method SendPath(path: string, fromMap: Listing, toMap: Listing, rule: Rule, dir: Direction, os: Ignore.Platform)
    returns (actions: seq<SyncAction>)
    requires path in fromMap
    ensures var d := Decide(OneWayPolicy(rule, dir, os), SourceOf(fromMap, toMap, dir),
                            SourceOf(toMap, fromMap, dir), path);
            actions == if d.Some? then [d.value] else []
  {
    var ignored := Ignore.ShouldIgnore(path, rule.ignorePatterns, os);
    if ignored { return []; }
    var fromInfo := fromMap[path];
    if path !in toMap {
      if fromInfo.IsDir() {
        return [SyncAction(Mkdir, dir, path, Some(fromInfo), None, DirMissing)];
      }
      return [SyncAction(Copy, dir, path, Some(fromInfo), None, FileMissing)];
    }
    var toInfo := toMap[path];
    if fromInfo.kind != toInfo.kind {
      return [SyncAction(ActionType.Conflict, dir, path, Some(fromInfo), Some(toInfo), TypeMismatch)];
    }
    if fromInfo.IsFile() && toInfo.IsFile() {
      var result := Diff.Compare(Some(fromInfo), Some(toInfo));
      if result == Diff.FileModified {
        return [SyncAction(Copy, dir, path, Some(fromInfo), Some(toInfo), FileChanged)];
      }
    }
    return [];
  }

  /** The first loop: everything on the sending side, in the order the map yields it. */
  method PlanSends(fromMap: Listing, toMap: Listing, rule: Rule, dir: Direction, os: Ignore.Platform)
    returns (actions: seq<SyncAction>)
    ensures Decided(actions, fromMap.Keys, OneWayPolicy(rule, dir, os), SourceOf(fromMap, toMap, dir),
                    SourceOf(toMap, fromMap, dir))
  {
    ghost var pol := OneWayPolicy(rule, dir, os);
    ghost var src, tgt := SourceOf(fromMap, toMap, dir), SourceOf(toMap, fromMap, dir);
    actions := [];
    var rest := fromMap.Keys;
    ghost var done := {};
    while rest != {}
      invariant rest <= fromMap.Keys && done == fromMap.Keys - rest
      invariant Decided(actions, done, pol, src, tgt)
    {
      var path :| path in rest;
      rest := rest - {path};
      var more := SendPath(path, fromMap, toMap, rule, dir, os);
      DecidedNext(actions, done, pol, src, tgt, path, actions + more);
      actions, done := actions + more, done + {path};
    }
    assert done == fromMap.Keys;
  }

  /** The second loop: what only the receiving side has. */
  method PlanDeletes(sends: seq<SyncAction>, fromMap: Listing, toMap: Listing, rule: Rule, dir: Direction,
                     os: Ignore.Platform)
    returns (actions: seq<SyncAction>)
    requires Decided(sends, fromMap.Keys, OneWayPolicy(rule, dir, os), SourceOf(fromMap, toMap, dir),
                     SourceOf(toMap, fromMap, dir))
    ensures Decided(actions, fromMap.Keys + toMap.Keys, OneWayPolicy(rule, dir, os),
                    SourceOf(fromMap, toMap, dir), SourceOf(toMap, fromMap, dir))
  {
    ghost var pol := OneWayPolicy(rule, dir, os);
    ghost var src, tgt := SourceOf(fromMap, toMap, dir), SourceOf(toMap, fromMap, dir);
    actions := sends;
    var rest := toMap.Keys;
    ghost var done := fromMap.Keys;
    while rest != {}
      invariant rest <= toMap.Keys && done == fromMap.Keys + (toMap.Keys - rest)
      invariant Decided(actions, done, pol, src, tgt)
    {
      var path :| path in rest;
      rest := rest - {path};
      var ignored := Ignore.ShouldIgnore(path, rule.ignorePatterns, os);
      if path !in fromMap {
        var more := if ignored then [] else [SyncAction(Delete, dir, path, None, Some(toMap[path]), GoneFromSource)];
        DecidedNext(actions, done, pol, src, tgt, path, actions + more);
        actions := actions + more;
      }
      done := done + {path};
    }
    assert done == fromMap.Keys + toMap.Keys;
  }

  method PlanOneWay(fromMap: Listing, toMap: Listing, rule: Rule, dir: Direction, os: Ignore.Platform)
    returns (plan: SyncPlan)
    ensures fresh(plan)
    ensures Finished(plan, rule, OneWayPolicy(rule, dir, os), SourceOf(fromMap, toMap, dir),
                     SourceOf(toMap, fromMap, dir))
  {
    plan := new SyncPlan(rule.name);
    var sends := PlanSends(fromMap, toMap, rule, dir, os);
    plan.actions := PlanDeletes(sends, fromMap, toMap, rule, dir, os);
    Finish(plan, fromMap.Keys + toMap.Keys, OneWayPolicy(rule, dir, os),
           SourceOf(fromMap, toMap, dir), SourceOf(toMap, fromMap, dir));
  }

  method PlanTwoWay(sourceMap: Listing, targetMap: Listing, rule: Rule, os: Ignore.Platform) returns (plan: SyncPlan)
    ensures fresh(plan) && Finished(plan, rule, PolicyOf(rule, TwoWay, os), sourceMap, targetMap)
  {
    ghost var pol := PolicyOf(rule, TwoWay, os);
    plan := new SyncPlan(rule.name);
    var allPaths := sourceMap.Keys + targetMap.Keys;
    var rest := allPaths;
    while rest != {}
      invariant rest <= allPaths
      invariant plan.ruleName == rule.name && plan.stats == NO_STATS && plan.conflicts == []
      invariant Decided(plan.actions, allPaths - rest, pol, sourceMap, targetMap)
    {
      var path :| path in rest;
      ghost var done, before := allPaths - rest, plan.actions;
      rest := rest - {path};
      assert done + {path} == allPaths - rest;
      var src, tgt := Lookup(sourceMap, path), Lookup(targetMap, path);
      var ignored := Ignore.ShouldIgnore(path, rule.ignorePatterns, os);
      if ignored {
      } else if src.Some? && tgt.None? {
        if src.value.IsDir() {
          plan.actions := plan.actions + [SyncAction(Mkdir, SourceToTarget, path, src, None, DirOnlyOnSource)];
        } else {
          plan.actions := plan.actions + [SyncAction(Copy, SourceToTarget, path, src, None, FileOnlyOnSource)];
        }
      } else if src.None? && tgt.Some? {
        if tgt.value.IsDir() {
          plan.actions := plan.actions + [SyncAction(Mkdir, TargetToSource, path, None, tgt, DirOnlyOnTarget)];
        } else {
          plan.actions := plan.actions + [SyncAction(Copy, TargetToSource, path, None, tgt, FileOnlyOnTarget)];
        }
      } else if src.Some? && tgt.Some? && src.value.kind != tgt.value.kind {
        plan.actions := plan.actions + [SyncAction(ActionType.Conflict, SourceToTarget, path, src, tgt, TypeMismatch)];
      } else if src.Some? && tgt.Some? && src.value.IsFile() && tgt.value.IsFile() {
        var result := Diff.Compare(src, tgt);
        if result == Diff.FileModified {
          var action := Conflict.Resolve(rule.strategy, path, src, tgt);
          plan.actions := plan.actions + [action];
        }
      }
      DecidedNext(before, done, pol, sourceMap, targetMap, path, plan.actions);
    }
    Finish(plan, allPaths, pol, sourceMap, targetMap);
  }
}
