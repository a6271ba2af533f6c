/** What a plan says about each path and in which order, told by the listings and the rule alone. */
module Decisions {
  import opened Domain
  import opened Paths
  import opened PlannerSpec
  import opened Planner
  import Ignore

  /** A plan's action for a path is the decision taken for it. */
  lemma ActionIsDecision(plan: seq<SyncAction>, pol: Policy, src: Listing, tgt: Listing, p: string, a: SyncAction)
    requires IsPlan(plan, pol, src, tgt)
    ensures a in plan && a.path == p <==> Decide(pol, src, tgt, p) == Some(a)
  {
    DecisionPath(pol, src, tgt, p);
  }

  // ----- which paths get which action

  /** Two regular files that a plan tells apart: their sizes differ, or both their times and their checksums do. */
  predicate ToldApart(s: FileInfo, t: FileInfo) {
    && s.kind == Regular && t.kind == Regular
    && (s.size != t.size || (s.modTime != t.modTime && s.checksum != t.checksum))
  }

  /** The sides report one checksum. */
  predicate OneChecksum(s: FileInfo, t: FileInfo) {
    s.checksum != "" && s.checksum == t.checksum
  }

  /** A path that has different types on the two sides has exactly one action, in every mode: a reported conflict. */
  lemma MismatchIsReported(plan: seq<SyncAction>, pol: Policy, src: Listing, tgt: Listing, p: string)
    requires IsPlan(plan, pol, src, tgt)
    requires p in src && p in tgt && src[p].kind != tgt[p].kind && !pol.ignored(p)
    ensures exists i :: 0 <= i < |plan| && plan[i].path == p && plan[i].kind == ActionType.Conflict
    ensures forall i, j :: 0 <= i < |plan| && 0 <= j < |plan| && plan[i].path == plan[j].path == p ==> i == j
  {
    var a := Decide(pol, src, tgt, p).value;
    ActionIsDecision(plan, pol, src, tgt, p, a);
    var i :| 0 <= i < |plan| && plan[i] == a;
    assert plan[i].path == p && plan[i].kind == ActionType.Conflict;
    forall i, j | 0 <= i < |plan| && 0 <= j < |plan| && plan[i].path == plan[j].path ensures i == j {
      PathsDistinct(plan, pol, src, tgt, i, j);
    }
  }

  /** One-way, from the sending listing to the receiving one: which paths get which action. */
  lemma OneWayKinds(plan: seq<SyncAction>, pol: Policy, src: Listing, tgt: Listing, p: string)
    requires IsPlan(plan, pol, src, tgt) && pol.mode != TwoWay
    ensures var from, to := if pol.mode == OneWayPush then src else tgt, if pol.mode == OneWayPush then tgt else src;
            && ((exists a :: a in plan && a.path == p && a.kind == Mkdir) <==>
                  !pol.ignored(p) && p in from && p !in to && from[p].kind == Directory)
            && ((exists a :: a in plan && a.path == p && a.kind == Copy) <==>
                  && !pol.ignored(p) && p in from
                  && if p in to then ToldApart(from[p], to[p]) else from[p].kind != Directory)
            && ((exists a :: a in plan && a.path == p && a.kind == Delete) <==>
                  !pol.ignored(p) && p !in from && p in to)
            && ((exists a :: a in plan && a.path == p && a.kind == ActionType.Conflict) <==>
                  !pol.ignored(p) && p in from && p in to && from[p].kind != to[p].kind)
            && forall a :: a in plan && a.path == p ==> a.kind != Skip
  {
    forall a ensures a in plan && a.path == p <==> Decide(pol, src, tgt, p) == Some(a) {
      ActionIsDecision(plan, pol, src, tgt, p, a);
    }
    if Decide(pol, src, tgt, p).Some? { assert Decide(pol, src, tgt, p).value in plan; }
  }

  /** One-way, what an action shows: its direction, what was listed on the two sides, and why. */
  lemma OneWayShows(plan: seq<SyncAction>, pol: Policy, src: Listing, tgt: Listing, a: SyncAction)
    requires IsPlan(plan, pol, src, tgt) && pol.mode != TwoWay && a in plan
    ensures var from, to := if pol.mode == OneWayPush then src else tgt, if pol.mode == OneWayPush then tgt else src;
            && a.dir == (if pol.mode == OneWayPush then SourceToTarget else TargetToSource)
            && a.sourceInfo == (if a.path in from then Some(from[a.path]) else None)
            && a.targetInfo == (if a.path in to then Some(to[a.path]) else None)
            && (a.reason == DirMissing <==> a.kind == Mkdir)
            && (a.reason == FileMissing <==> a.kind == Copy && a.path !in to)
            && (a.reason == FileChanged <==> a.kind == Copy && a.path in to)
            && (a.reason == GoneFromSource <==> a.kind == Delete)
            && (a.reason == TypeMismatch <==> a.kind == ActionType.Conflict)
  {
    ActionIsDecision(plan, pol, src, tgt, a.path, a);
  }

  /** Two-way, what is on one side only goes to the other; nothing is ever deleted. */
  lemma TwoWayAdds(plan: seq<SyncAction>, pol: Policy, src: Listing, tgt: Listing, p: string, d: Direction)
    requires IsPlan(plan, pol, src, tgt) && pol.mode == TwoWay
    requires var from, to := if d == SourceToTarget then src else tgt, if d == SourceToTarget then tgt else src;
             p in from && p !in to && !pol.ignored(p)
    ensures var from := if d == SourceToTarget then src else tgt;
            exists a :: a in plan && a.path == p && a.dir == d
                        && a.kind == if from[p].kind == Directory then Mkdir else Copy
    ensures forall a, b :: a in plan && b in plan && a.path == b.path == p ==> a == b
  {
    forall a ensures a in plan && a.path == p <==> Decide(pol, src, tgt, p) == Some(a) {
      ActionIsDecision(plan, pol, src, tgt, p, a);
    }
    assert Decide(pol, src, tgt, p).value in plan;
  }

  /** Two-way, a path on both sides: which strategy does what with two files that are told apart, and that nothing but
      these and type mismatches gets an action. */
  lemma TwoWayKinds(plan: seq<SyncAction>, pol: Policy, src: Listing, tgt: Listing, p: string)
    requires IsPlan(plan, pol, src, tgt) && pol.mode == TwoWay && p in src && p in tgt && !pol.ignored(p)
    ensures var s, t := src[p], tgt[p];
            var apart, newest := ToldApart(s, t), pol.strategy == KeepNewest && !OneChecksum(s, t);
            && ((exists a :: a in plan && a.path == p && a.kind == Copy && a.dir == SourceToTarget) <==>
                  apart && (pol.strategy == KeepRemote || (newest && s.modTime > t.modTime)))
            && ((exists a :: a in plan && a.path == p && a.kind == Copy && a.dir == TargetToSource) <==>
                  apart && newest && t.modTime > s.modTime)
            && ((exists a :: a in plan && a.path == p && a.kind == Skip) <==>
                  apart && (pol.strategy == KeepLocal || (pol.strategy == KeepNewest && OneChecksum(s, t))))
            && ((exists a :: a in plan && a.path == p && a.kind == ActionType.Conflict) <==>
                  || s.kind != t.kind
                  || (apart && (pol.strategy == Manual || pol.strategy.Unknown? || (newest && s.modTime == t.modTime))))
            && forall a :: a in plan && a.path == p ==> a.kind != Mkdir && a.kind != Delete
  {
    forall a ensures a in plan && a.path == p <==> Decide(pol, src, tgt, p) == Some(a) {
      ActionIsDecision(plan, pol, src, tgt, p, a);
    }
    if Decide(pol, src, tgt, p).Some? { assert Decide(pol, src, tgt, p).value in plan; }
  }

  /** Two-way, what an action shows. */
  lemma TwoWayShows(plan: seq<SyncAction>, pol: Policy, src: Listing, tgt: Listing, a: SyncAction)
    requires IsPlan(plan, pol, src, tgt) && pol.mode == TwoWay && a in plan
    ensures !pol.ignored(a.path) && (a.path in src || a.path in tgt)
    ensures a.sourceInfo == if a.path in src then Some(src[a.path]) else None
    ensures a.targetInfo == if a.path in tgt then Some(tgt[a.path]) else None
    ensures (a.kind == Skip || a.kind == ActionType.Conflict) ==> a.dir == SourceToTarget
    ensures a.path !in tgt ==> a.reason == if src[a.path].kind == Directory then DirOnlyOnSource else FileOnlyOnSource
    ensures a.path !in src ==> a.reason == if tgt[a.path].kind == Directory then DirOnlyOnTarget else FileOnlyOnTarget
    ensures a.path in src && a.path in tgt ==>
              var s, t := src[a.path], tgt[a.path];
              if s.kind != t.kind then a.reason == TypeMismatch
              else match pol.strategy
                   case KeepLocal => a.reason == KeepingLocal
                   case KeepRemote => a.reason == UsingRemote
                   case KeepNewest =>
                     a.reason == if OneChecksum(s, t) then SameContent
                                 else if s.modTime > t.modTime then SourceNewer
                                 else if s.modTime < t.modTime then TargetNewer else SameTimeOtherSize
                   case _ => a.reason == NeedsManual
  {
    ActionIsDecision(plan, pol, src, tgt, a.path, a);
  }

  /** The conflict list of a finished plan holds its conflicts and nothing else. */
  lemma ConflictsListed(plan: SyncPlan, rule: Rule, pol: Policy, src: Listing, tgt: Listing, a: SyncAction)
    requires Finished(plan, rule, pol, src, tgt)
    ensures a in plan.conflicts <==> a in plan.actions && a.kind == ActionType.Conflict
  {
    MembersOfKind(plan.actions, ActionType.Conflict, a);
  }

  /** So a path with different types on the two sides is in it. */
  lemma MismatchIsListed(plan: SyncPlan, rule: Rule, pol: Policy, src: Listing, tgt: Listing, p: string)
    requires Finished(plan, rule, pol, src, tgt)
    requires p in src && p in tgt && src[p].kind != tgt[p].kind && !pol.ignored(p)
    ensures exists a :: a in plan.conflicts && a.path == p && a.reason == TypeMismatch
  {
    MismatchIsReported(plan.actions, pol, src, tgt, p);
    var a := Decide(pol, src, tgt, p).value;
    ActionIsDecision(plan.actions, pol, src, tgt, p, a);
    ConflictsListed(plan, rule, pol, src, tgt, a);
  }

  lemma {:induction false} MembersOfKind(actions: seq<SyncAction>, kind: ActionType, a: SyncAction)
    ensures a in OfKind(actions, kind) <==> a in actions && a.kind == kind
  {
    if actions != [] {
      var n := |actions| - 1;
      MembersOfKind(actions[..n], kind, a);
      assert actions == actions[..n] + [actions[n]];
    }
  }

  /** What a rule's policy is made of. */
  lemma PolicyIsRule(rule: Rule, mode: SyncMode, dir: Direction, os: Ignore.Platform, p: string)
    ensures var pol := PolicyOf(rule, mode, os);
            && pol.mode == mode && pol.strategy == rule.strategy
            && (pol.ignored(p) <==> Ignore.Ignored(p, rule.ignorePatterns, os))
    ensures OneWayPolicy(rule, dir, os).mode == if dir == SourceToTarget then OneWayPush else OneWayPull
    ensures OneWayPolicy(rule, dir, os).ignored(p) <==> Ignore.Ignored(p, rule.ignorePatterns, os)
  {
  }

  // ----- in which order

  /** The separators of a path, of either kind, by their places. */
  lemma {:induction false} CountIsPlaces(p: string, c: char)
    ensures |set n | 0 <= n < |p| && p[n] == c| == Count(p, c)
  {
    var places := set n | 0 <= n < |p| && p[n] == c;
    if p == "" {
      assert places == {};
    } else {
      var init, m := p[..|p| - 1], |p| - 1;
      CountIsPlaces(init, c);
      var before := set n | 0 <= n < |init| && init[n] == c;
      assert places == before + if p[m] == c then {m} else {};
    }
  }

  lemma DepthIsPlaces(p: string)
    ensures |set n | 0 <= n < |p| && (p[n] == '/' || p[n] == '\\')| == Depth(p)
  {
    CountIsPlaces(p, '/');
    CountIsPlaces(p, '\\');
    var a, b := set n | 0 <= n < |p| && p[n] == '/', set n | 0 <= n < |p| && p[n] == '\\';
    assert (set n | 0 <= n < |p| && (p[n] == '/' || p[n] == '\\')) == a + b && a !! b;
  }

  /** One text comes before another where they first differ: there it has ended or has the smaller character. */
  lemma {:induction false} PrecedesAt(a: string, b: string) returns (n: nat)
    requires Precedes(a, b)
    ensures n <= |a| && n < |b| && a[..n] == b[..n] && (n == |a| || a[n] < b[n])
  {
    if a == "" || a[0] < b[0] {
      return 0;
    }
    n := PrecedesAt(a[1..], b[1..]);
    n := n + 1;
    assert a[..n] == [a[0]] + a[1..][..n - 1] && b[..n] == [b[0]] + b[1..][..n - 1];
  }

  /** Of two actions of a plan the earlier one is of the same or an earlier kind: directories, copies, deletions,
      conflicts, skips. Of one kind, its path has no more separators, or for deletions no fewer. At one depth, its path
      has the smaller character where the two first differ. */
  lemma OrderOfActions(plan: seq<SyncAction>, pol: Policy, src: Listing, tgt: Listing, i: nat, j: nat)
    requires IsPlan(plan, pol, src, tgt) && i < j < |plan|
    ensures var rank := map[Mkdir := 1, Copy := 2, Delete := 3, ActionType.Conflict := 4, Skip := 5];
            rank[plan[i].kind] <= rank[plan[j].kind]
    ensures plan[i].kind == plan[j].kind ==>
              var a, b := plan[i].path, plan[j].path;
              var m := |set n | 0 <= n < |a| && (a[n] == '/' || a[n] == '\\')|;
              var k := |set n | 0 <= n < |b| && (b[n] == '/' || b[n] == '\\')|;
              && (if plan[i].kind == Delete then m >= k else m <= k)
              && (m == k ==> exists n :: 0 <= n <= |a| && n < |b| && a[..n] == b[..n] && (n == |a| || a[n] < b[n]))
  {
    var a, b := plan[i].path, plan[j].path;
    assert Less(plan[i], plan[j]);
    DepthIsPlaces(a);
    DepthIsPlaces(b);
    if plan[i].kind == plan[j].kind && Depth(a) == Depth(b) {
      var n := PrecedesAt(a, b);
      assert 0 <= n <= |a| && n < |b| && a[..n] == b[..n];
    }
  }

  // ----- what the statistics count

  /** The counters count positions, and a conflict stands in the list after those before it. */
  lemma {:induction false} CountersCount(actions: seq<SyncAction>, kind: ActionType)
    ensures |set n | 0 <= n < |actions| && actions[n].kind == kind| == CountKind(actions, kind)
  {
    var places := set n | 0 <= n < |actions| && actions[n].kind == kind;
    if actions == [] {
      assert places == {};
    } else {
      var init, m := actions[..|actions| - 1], |actions| - 1;
      CountersCount(init, kind);
      var before := set n | 0 <= n < |init| && init[n].kind == kind;
      assert forall n :: n in places <==> n in before || (n == m && actions[m].kind == kind);
      assert places == before + if actions[m].kind == kind then {m} else {};
    }
  }

  lemma StatsCount(actions: seq<SyncAction>)
    ensures var s := StatsOf(actions);
            && s.totalFiles == |actions|
            && s.filesToCopy == |set n | 0 <= n < |actions| && actions[n].kind == Copy|
            && s.filesToDelete == |set n | 0 <= n < |actions| && actions[n].kind == Delete|
            && s.dirsToCreate == |set n | 0 <= n < |actions| && actions[n].kind == Mkdir|
            && s.conflicts == |set n | 0 <= n < |actions| && actions[n].kind == ActionType.Conflict|
  {
    CountersCount(actions, Copy);
    CountersCount(actions, Delete);
    CountersCount(actions, Mkdir);
    CountersCount(actions, ActionType.Conflict);
  }

  /** Each copy adds the size listed for the source, or for the target where the source has no such file; nothing else
      adds bytes, and each conflict is listed after those before it. */
  lemma StatsGrow(actions: seq<SyncAction>, a: SyncAction)
    ensures StatsOf([]).bytesToSync == 0 && OfKind([], ActionType.Conflict) == []
    ensures StatsOf(actions + [a]).bytesToSync == StatsOf(actions).bytesToSync +
            if a.kind != Copy then 0
            else if a.sourceInfo.Some? then a.sourceInfo.value.size
            else if a.targetInfo.Some? then a.targetInfo.value.size else 0
    ensures OfKind(actions + [a], ActionType.Conflict) ==
            OfKind(actions, ActionType.Conflict) + if a.kind == ActionType.Conflict then [a] else []
  {
    assert (actions + [a])[..|actions|] == actions;
  }
}
