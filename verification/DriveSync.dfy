/** Listing, planning and running a rule between a local store and Drive. */
module DriveSync {
  import opened Domain
  import opened Trees
  import opened Adapter
  import opened PlannerSpec
  import opened Planner
  import opened Execution
  import opened Walk
  import opened Sync
  import opened DriveItems
  import opened DriveTree
  import opened Drive
  import opened DriveRun
  import opened FileLocks
  import Executor
  import Ignore
  import LockProtocol

  /** Since the cache was `had`, only keys that the rule may look up have been written, and these are right. */
  ghost predicate Looked(drive: DriveAdapter, had: map<string, Id>, ignored: string -> bool)
    reads drive, drive.service
  {
    && drive.service.Valid() && drive.Opened()
    && SeenRight(drive.cache, drive.service.items, drive.root, ignored)
    && UnseenAs(drive.cache, had, drive.root, ignored)
  }

  /** A directory the walk may list. */
  ghost predicate Listable(d: string, ignored: string -> bool) {
    d == "" || (Clean(d) && !ignored(d))
  }

  lemma AlongDirIsSeen(key: string, root: string, d: string, ignored: string -> bool)
    requires Canonical(root) && Listable(d, ignored) && Closed(ignored)
    requires key != "" && Parts(key) <= Parts(root) + DirParts(d)
    ensures Seen(key, root, ignored)
  {
    if d == "" {
      assert Parts(root) + [] == Parts(root);
    } else {
      AlongIsSeen(key, root, d, ignored);
    }
  }

  lemma ReadyToList(drive: DriveAdapter, had: map<string, Id>, d: string, ignored: string -> bool)
    requires Looked(drive, had, ignored) && Listable(d, ignored) && Closed(ignored)
    ensures drive.ReadyAt(d) && Parts(drive.FullPath(d)) == Parts(drive.root) + DirParts(d)
  {
    DirPath(drive.root, d);
    forall key | key in drive.cache && Parts(key) <= Parts(drive.FullPath(d))
      ensures Right(drive.cache, drive.service.items, key)
    {
      AlongDirIsSeen(key, drive.root, d, ignored);
    }
  }

  /** Looking a directory up writes seen keys only. */
  lemma StillLooked(drive: DriveAdapter, mid: map<string, Id>, had: map<string, Id>, d: string, ignored: string -> bool)
    requires Listable(d, ignored) && Closed(ignored) && drive.ReadyAt(d)
    requires GrewAlong(drive.cache, mid, Parts(drive.root) + DirParts(d))
    requires Parts(drive.FullPath(d)) == Parts(drive.root) + DirParts(d)
    requires SeenRight(mid, drive.service.items, drive.root, ignored) && UnseenAs(mid, had, drive.root, ignored)
    ensures Looked(drive, had, ignored)
  {
    var cache, root := drive.cache, drive.root;
    forall key | key in cache && key != "" && Seen(key, root, ignored) ensures Right(cache, drive.service.items, key) {
      if !(Parts(key) <= Parts(root) + DirParts(d)) { assert Right(mid, drive.service.items, key); }
    }
    forall key | key != "" && !Seen(key, root, ignored)
      ensures (key in cache <==> key in had) && (key in cache ==> cache[key] == had[key])
    {
      if Parts(key) <= Parts(root) + DirParts(d) { AlongDirIsSeen(key, root, d, ignored); }
      assert (key in mid <==> key in had) && (key in mid ==> mid[key] == had[key]);
      assert key in cache <==> key in mid;
    }
  }

  /** The tree below the root, every name of which can be part of a path. */
  ghost predicate Displays(items: Items, root: string, t: Tree) {
    root != "" && Tidy(items) && TreeOf(items, Parts(root)) == t && WellFormed(t)
  }

  /** The drive shows the tree `t` while the rule looks around in it. */
  ghost predicate Looking(drive: DriveAdapter, had: map<string, Id>, t: Tree, ignored: string -> bool)
    reads drive, drive.service
  {
    && Looked(drive, had, ignored) && Displays(drive.service.items, drive.root, t)
    && FilesAsBefore(drive.cache, had, t, drive.root)
  }

  /** One entry of a directory on Drive: nothing if it is ignored, itself and its own walk if it is a directory, itself
      otherwise. */
  method ListEntry(drive: DriveAdapter, item: FileInfo, prefix: string, patterns: seq<string>, os: Ignore.Platform,
                   ghost had: map<string, Id>, ghost t: Tree)
    returns (files: Option<seq<FileInfo>>)
    requires Looking(drive, had, t, Ignore.IgnoredBy(patterns, os))
    requires item.path in t && ChildOf(item.path, prefix) && item == Info(item.path, t[item.path], drive.Sum())
    modifies drive`cache
    ensures Looking(drive, had, t, Ignore.IgnoredBy(patterns, os))
    ensures files.None? <==> EntryFails(t, item.path, Ignore.IgnoredBy(patterns, os))
    ensures files.Some? ==>
              Walked(files.value, {item.path} + Region(t, item.path), prefix, t, drive.Sum(),
                     Ignore.IgnoredBy(patterns, os))
    decreases Region(t, prefix), 1
  {
    ghost var sum, ignored := drive.Sum(), Ignore.IgnoredBy(patterns, os);
    var skip := Ignore.ShouldIgnore(item.path, patterns, os);
    if skip {
      SkippedEntry(item.path, prefix, t, sum, patterns, os);
      files := Some([]);
    } else if item.IsDir() {
      files := ListDirectory(drive, item, prefix, patterns, os, had, t);
    } else {
      LeafEntry(item, prefix, t, sum, ignored);
      files := Some([item]);
    }
  }

  lemma EntryIsClean(drive: DriveAdapter, had: map<string, Id>, t: Tree, ignored: string -> bool, p: string)
    requires Looking(drive, had, t, ignored) && p in t
    ensures Clean(p)
  {
    TreeAt(drive.service.items, Parts(drive.root), p);
  }

  method ListDirectory(drive: DriveAdapter, item: FileInfo, prefix: string, patterns: seq<string>, os: Ignore.Platform,
                       ghost had: map<string, Id>, ghost t: Tree)
    returns (files: Option<seq<FileInfo>>)
    requires Looking(drive, had, t, Ignore.IgnoredBy(patterns, os)) && !Ignore.Ignored(item.path, patterns, os)
    requires item.path in t && ChildOf(item.path, prefix) && item == Info(item.path, t[item.path], drive.Sum())
    requires item.IsDir()
    modifies drive`cache
    ensures Looking(drive, had, t, Ignore.IgnoredBy(patterns, os))
    ensures files.None? <==> EntryFails(t, item.path, Ignore.IgnoredBy(patterns, os))
    ensures files.Some? ==>
              Walked(files.value, {item.path} + Region(t, item.path), prefix, t, drive.Sum(),
                     Ignore.IgnoredBy(patterns, os))
    decreases Region(t, prefix), 0
  {
    SmallerRegion(t, item.path, prefix);
    EntryIsClean(drive, had, t, Ignore.IgnoredBy(patterns, os), item.path);
    files := ListAllFiles(drive, item.path, patterns, os, had, t);
    if files.Some? {
      WalkedEntry(item, files.value, prefix, t, drive.Sum(), Ignore.IgnoredBy(patterns, os));
      files := Some([item] + files.value);
    }
  }

  /** The pruned walk on Drive. It looks up nothing that is ignored. */
  method ListAllFiles(drive: DriveAdapter, prefix: string, patterns: seq<string>, os: Ignore.Platform,
                      ghost had: map<string, Id>, ghost t: Tree)
    returns (allFiles: Option<seq<FileInfo>>)
    requires Looking(drive, had, t, Ignore.IgnoredBy(patterns, os))
    requires Listable(prefix, Ignore.IgnoredBy(patterns, os)) && IsDirectory(t, prefix)
    modifies drive`cache
    ensures Looking(drive, had, t, Ignore.IgnoredBy(patterns, os))
    ensures allFiles.None? <==> Refused(prefix) || Unlistable(t, prefix, Ignore.IgnoredBy(patterns, os))
    ensures allFiles.Some? ==>
              Walked(allFiles.value, Region(t, prefix), prefix, t, drive.Sum(), Ignore.IgnoredBy(patterns, os))
    decreases Region(t, prefix), 3
  {
    ghost var sum, ignored := drive.Sum(), Ignore.IgnoredBy(patterns, os);
    var items := ListOne(drive, prefix, patterns, os, had, t);
    if items.None? { return None; }
    var files := [];
    HandledNone(items.value, prefix, t, sum, ignored);
    for i := 0 to |items.value|
      invariant Looking(drive, had, t, ignored)
      invariant HandledUpTo(files, items.value, i, prefix, t, sum, ignored)
    {
      var more := ListNext(drive, items.value, i, files, prefix, patterns, os, had, t);
      if more.None? { return None; }
      files := more.value;
    }
    AllHandled(files, items.value, prefix, t, sum, patterns, os);
    return Some(files);
  }

  /** The next entry of a directory. */
  method ListNext(drive: DriveAdapter, items: seq<FileInfo>, i: nat, files: seq<FileInfo>, prefix: string,
                  patterns: seq<string>, os: Ignore.Platform, ghost had: map<string, Id>, ghost t: Tree)
    returns (more: Option<seq<FileInfo>>)
    requires Looking(drive, had, t, Ignore.IgnoredBy(patterns, os))
    requires ListsEntries(items, t, prefix, drive.Sum()) && i < |items|
    requires HandledUpTo(files, items, i, prefix, t, drive.Sum(), Ignore.IgnoredBy(patterns, os))
    modifies drive`cache
    ensures Looking(drive, had, t, Ignore.IgnoredBy(patterns, os))
    ensures more.None? ==> Unlistable(t, prefix, Ignore.IgnoredBy(patterns, os))
    ensures more.Some? ==>
              HandledUpTo(more.value, items, i + 1, prefix, t, drive.Sum(), Ignore.IgnoredBy(patterns, os))
    decreases Region(t, prefix), 2
  {
    ghost var sum, ignored := drive.Sum(), Ignore.IgnoredBy(patterns, os);
    var added := ListEntry(drive, items[i], prefix, patterns, os, had, t);
    if added.None? {
      FailingEntry(t, prefix, items[i].path, ignored);
      return None;
    }
    HandledOneMore(files, items, i, added.value, prefix, t, sum, ignored);
    return Some(files + added.value);
  }

  lemma AllHandled(files: seq<FileInfo>, items: seq<FileInfo>, d: string, t: Tree, sum: Digest, patterns: seq<string>,
                   os: Ignore.Platform)
    requires WellFormed(t) && ListsEntries(items, t, d, sum)
    requires HandledUpTo(files, items, |items|, d, t, sum, Ignore.IgnoredBy(patterns, os))
    ensures Walked(files, Region(t, d), d, t, sum, Ignore.IgnoredBy(patterns, os))
    ensures !Unlistable(t, d, Ignore.IgnoredBy(patterns, os))
  {
    Ignore.IgnoreClosed(patterns, os);
    HandledEach(files, items, d, t, sum, Ignore.IgnoredBy(patterns, os));
  }

  method ListOne(drive: DriveAdapter, dir: string, patterns: seq<string>, os: Ignore.Platform,
                 ghost had: map<string, Id>, ghost t: Tree)
    returns (listed: Option<seq<FileInfo>>)
    requires Looking(drive, had, t, Ignore.IgnoredBy(patterns, os))
    requires Listable(dir, Ignore.IgnoredBy(patterns, os)) && IsDirectory(t, dir)
    modifies drive`cache
    ensures Looking(drive, had, t, Ignore.IgnoredBy(patterns, os))
    ensures listed.None? <==> Refused(dir)
    ensures listed.Some? ==> ListsEntries(listed.value, t, dir, drive.Sum())
  {
    ghost var mid, ignored := drive.cache, Ignore.IgnoredBy(patterns, os);
    Ignore.IgnoreClosed(patterns, os);
    ReadyToList(drive, had, dir, ignored);
    listed := drive.List(dir);
    StillLooked(drive, mid, had, dir, ignored);
    NoFileListed(drive.cache, mid, had, t, drive.service.items, drive.root, dir);
  }

  /** Looking a directory up finds out about no file. */
  lemma NoFileListed(cache: map<string, Id>, mid: map<string, Id>, had: map<string, Id>, t: Tree, items: Items,
                     root: string, d: string)
    requires Canonical(root) && (d == "" || Clean(d)) && FilesAsBefore(mid, had, t, root)
    requires Proper(items) && Displays(items, root, t) && IsDirectory(t, d)
    requires GrewAlong(cache, mid, Parts(root) + DirParts(d))
    ensures FilesAsBefore(cache, had, t, root)
  {
    forall q | q in t ensures Clean(q) { TreeAt(items, Parts(root), q); }
    if d == "" {
      forall q | q in t && t[q].File? ensures root + "/" + q in cache <==> root + "/" + q in mid {
        FullParts(root, q);
      }
    } else {
      NoFileAboveEntry(t, d);
      NoFileLookedUp(cache, mid, had, t, root, d);
    }
  }

  // ----- planning

  /** Each side's checksums. */
  function SumsOf(local: Digest, onDrive: Digest, remote: Direction): Sums {
    if remote == SourceToTarget then Sums(local, onDrive) else Sums(onDrive, local)
  }

  /** The listing of the local store, as a map. */
  method MapLocal(local: LocalAdapter, patterns: seq<string>, os: Ignore.Platform) returns (m: Option<Listing>)
    requires WellFormed(local.tree)
    ensures m.None? <==> Unlistable(local.tree, "", Ignore.IgnoredBy(patterns, os))
    ensures m.Some? ==> m.value == Executor.Prune(ListTree(local.tree, local.sum), Ignore.IgnoredBy(patterns, os))
  {
    var files := Walk.ListAllFiles(local, "", patterns, os);
    if files.None? { return None; }
    var listing := Executor.ToMap(files.value);
    Executor.WalkedMap(files.value, listing, local.tree, local.sum, Ignore.IgnoredBy(patterns, os));
    return Some(listing);
  }

  /** The listing of Drive, as a map. */
  method MapDrive(drive: DriveAdapter, patterns: seq<string>, os: Ignore.Platform, ghost had: map<string, Id>,
                  ghost t: Tree)
    returns (m: Option<Listing>)
    requires Looking(drive, had, t, Ignore.IgnoredBy(patterns, os))
    modifies drive`cache
    ensures Looking(drive, had, t, Ignore.IgnoredBy(patterns, os))
    ensures m.None? <==> Unlistable(t, "", Ignore.IgnoredBy(patterns, os))
    ensures m.Some? ==> m.value == Executor.Prune(ListTree(t, drive.Sum()), Ignore.IgnoredBy(patterns, os))
  {
    var files := ListAllFiles(drive, "", patterns, os, had, t);
    if files.None? { return None; }
    var listing := Executor.ToMap(files.value);
    Executor.WalkedMap(files.value, listing, t, drive.Sum(), Ignore.IgnoredBy(patterns, os));
    return Some(listing);
  }

  /** From two pruned listings to the plan for the full trees. */
  method PlanMaps(rule: Rule, sourceMap: Listing, targetMap: Listing, os: Ignore.Platform, ghost s: Sides,
                  ghost sums: Sums)
    returns (plan: SyncPlan)
    requires sourceMap == Executor.Prune(ListTree(s.src, sums.src), Ignore.IgnoredBy(rule.ignorePatterns, os))
    requires targetMap == Executor.Prune(ListTree(s.tgt, sums.tgt), Ignore.IgnoredBy(rule.ignorePatterns, os))
    ensures fresh(plan) && Planned(plan.actions, PolicyOf(rule, rule.mode, os), s, sums)
  {
    match rule.mode {
      case OneWayPush => plan := PlanOneWay(sourceMap, targetMap, rule, SourceToTarget, os);
      case OneWayPull => plan := PlanOneWay(targetMap, sourceMap, rule, TargetToSource, os);
      case TwoWay => plan := PlanTwoWay(sourceMap, targetMap, rule, os);
    }
    Executor.PrunedPlan(plan.actions, PolicyOf(rule, rule.mode, os), ListTree(s.src, sums.src),
                        ListTree(s.tgt, sums.tgt));
  }

  /** Both listings, the source first; one that fails ends it. */
  method MapSides(local: LocalAdapter, drive: DriveAdapter, remote: Direction, patterns: seq<string>,
                  os: Ignore.Platform, ghost had: map<string, Id>, ghost t: Tree)
    returns (ok: bool, sourceMap: Listing, targetMap: Listing)
    requires WellFormed(local.tree) && Looking(drive, had, t, Ignore.IgnoredBy(patterns, os))
    modifies drive`cache
    ensures Looking(drive, had, t, Ignore.IgnoredBy(patterns, os))
    ensures ok <==> !Executor.PlanFails(SidesOf(local.tree, t, remote), Ignore.IgnoredBy(patterns, os))
    ensures var s, sums := SidesOf(local.tree, t, remote), SumsOf(local.sum, drive.Sum(), remote);
            ok ==>
              && sourceMap == Executor.Prune(ListTree(s.src, sums.src), Ignore.IgnoredBy(patterns, os))
              && targetMap == Executor.Prune(ListTree(s.tgt, sums.tgt), Ignore.IgnoredBy(patterns, os))
  {
    var first, second;
    if remote == SourceToTarget {
      first := MapLocal(local, patterns, os);
      if first.None? { return false, map[], map[]; }
      second := MapDrive(drive, patterns, os, had, t);
    } else {
      first := MapDrive(drive, patterns, os, had, t);
      if first.None? { return false, map[], map[]; }
      second := MapLocal(local, patterns, os);
    }
    if second.None? { return false, map[], map[]; }
    return true, first.value, second.value;
  }

  /** Planning a rule between a local store and Drive. */
  method PlanWithDrive(rule: Rule, local: LocalAdapter, drive: DriveAdapter, remote: Direction, os: Ignore.Platform,
                       ghost had: map<string, Id>, ghost t: Tree)
    returns (planned: Option<SyncPlan>)
    requires WellFormed(local.tree) && Looking(drive, had, t, Ignore.IgnoredBy(rule.ignorePatterns, os))
    modifies drive`cache
    ensures Looking(drive, had, t, Ignore.IgnoredBy(rule.ignorePatterns, os))
    ensures planned.None? <==>
              Executor.PlanFails(SidesOf(local.tree, t, remote), Ignore.IgnoredBy(rule.ignorePatterns, os))
    ensures planned.Some? ==>
              && fresh(planned.value)
              && Planned(planned.value.actions, PolicyOf(rule, rule.mode, os), SidesOf(local.tree, t, remote),
                         SumsOf(local.sum, drive.Sum(), remote))
  {
    var ok, sourceMap, targetMap := MapSides(local, drive, remote, rule.ignorePatterns, os, had, t);
    if !ok { return None; }
    var plan := PlanMaps(rule, sourceMap, targetMap, os, SidesOf(local.tree, t, remote),
                         SumsOf(local.sum, drive.Sum(), remote));
    return Some(plan);
  }

  // ----- planning and running

  /** Listing keeps a right cache right. */
  lemma LookingKeeps(drive: DriveAdapter, had: map<string, Id>, ignored: string -> bool)
    requires Looked(drive, had, ignored) && Coherent(had, drive.service.items)
    ensures drive.Valid()
  {
    var cache, root := drive.cache, drive.root;
    forall key | key in cache ensures Right(cache, drive.service.items, key) {
      if !Seen(key, root, ignored) { assert key in had && Right(had, drive.service.items, key); }
    }
  }

  /** It cannot change which ignored keys a run will sweep. */
  lemma SameSwept(cache: map<string, Id>, had: map<string, Id>, plan: seq<SyncAction>, n: nat, remote: Direction,
                  root: string, ignored: string -> bool)
    requires Canonical(root) && UnseenAs(cache, had, root, ignored) && n <= |plan|
    ensures KeySwept(cache, plan, n, remote, root, ignored) <==> KeySwept(had, plan, n, remote, root, ignored)
  {
    forall q | Clean(q) && ignored(q) ensures root + "/" + q in cache <==> root + "/" + q in had {
      IgnoredIsUnseen(root, q, ignored);
    }
  }

  method RunPlanned(plan: seq<SyncAction>, local: LocalAdapter, drive: DriveAdapter, remote: Direction, stamp: Stamps,
                    ghost pol: Policy, ghost sums: Sums, ghost had: map<string, Id>, ghost t: Tree)
    returns (ok: bool, ghost n: nat)
    requires Looking(drive, had, t, pol.ignored) && Closed(pol.ignored)
    requires var s0 := SidesOf(local.tree, t, remote); Sound(s0) && AllClean(s0) && Planned(plan, pol, s0, sums)
    modifies local`tree, drive`cache, drive.service
    ensures Ran(plan, |plan|, n, local, drive, remote, stamp, old(SidesOf(local.tree, t, remote)), had,
                Coherent(had, old(drive.service.items)), ok, pol.ignored)
  {
    ghost var mid := drive.cache;
    if Coherent(had, drive.service.items) { LookingKeeps(drive, had, pol.ignored); }
    SparesAll(plan, pol, SidesOf(local.tree, t, remote), sums);
    ok, n := RunOnDrive(plan, |plan|, local, drive, remote, stamp, pol, sums, pol.ignored);
    SameSwept(mid, had, plan, n, remote, drive.root, pol.ignored);
  }

  /** What comes of executing a plan under the lock: the run, if the lock was free, and nothing otherwise. */
  ghost predicate RanLocked(free: bool, plan: seq<SyncAction>, n: nat, local: LocalAdapter, drive: DriveAdapter,
                            remote: Direction, stamp: Stamps, s0: Sides, had: map<string, Id>, wasRight: bool, ok: bool,
                            ignored: string -> bool)
    reads local, drive, drive.service
  {
    if free then Ran(plan, |plan|, n, local, drive, remote, stamp, s0, had, wasRight, ok, ignored)
    else !ok && drive.root != "" && SidesOf(local.tree, drive.Contents(), remote) == s0
  }

  /** The loop under the lock. When the lock cannot be had nothing happens; otherwise the loop runs and the lock file is
      gone afterwards. */
  method RunLocked(plan: SyncPlan, local: LocalAdapter, drive: DriveAdapter, remote: Direction, stamp: Stamps,
                   lock: FileLock, now: int, ghost pol: Policy, ghost sums: Sums, ghost had: map<string, Id>,
                   ghost t: Tree)
    returns (ok: bool, ghost n: nat)
    requires Looking(drive, had, t, pol.ignored) && Closed(pol.ignored) && lock.Valid()
    requires var s0 := SidesOf(local.tree, t, remote);
             Sound(s0) && AllClean(s0) && Planned(plan.actions, pol, s0, sums)
    modifies local`tree, drive`cache, drive.service, lock`info, lock.dir`file, lock.dir`nextInode
    ensures lock.Valid() && lock.Available() == old(lock.Available())
    ensures lock.dir.file == if old(lock.Available()) then LockProtocol.Absent else old(lock.dir.file)
    ensures RanLocked(old(lock.Available()), plan.actions, n, local, drive, remote, stamp,
                      old(SidesOf(local.tree, t, remote)), had, Coherent(had, old(drive.service.items)), ok,
                      pol.ignored)
  {
    var acquired := lock.Acquire(plan.ruleName, now);
    if acquired != LockProtocol.Succeeded { return false, 0; }
    ok, n := RunPlanned(plan.actions, local, drive, remote, stamp, pol, sums, had, t);
    var released := lock.Release();
  }

  /** One planned and executed run of a rule between a local store and Drive under the lock, with an adapter whose cache
      is right for every key the rule may look up, as a fresh one's is. */
  method SyncWithDrive(rule: Rule, local: LocalAdapter, drive: DriveAdapter, remote: Direction, os: Ignore.Platform,
                       stamp: Stamps, lock: FileLock, now: int)
    returns (planned: bool, ok: bool, ghost plan: seq<SyncAction>, ghost n: nat)
    requires drive.service.Valid() && drive.Opened() && Tidy(drive.service.items) && lock.Valid()
    requires SeenRight(drive.cache, drive.service.items, drive.root, Ignore.IgnoredBy(rule.ignorePatterns, os))
    requires Sound(SidesOf(local.tree, drive.Contents(), remote)) && forall p :: p in local.tree ==> Clean(p)
    modifies local`tree, drive`cache, drive.service, lock`info, lock.dir`file, lock.dir`nextInode
    ensures lock.Valid() && lock.Available() == old(lock.Available())
    ensures planned <==>
              !Executor.PlanFails(old(SidesOf(local.tree, drive.Contents(), remote)),
                                  Ignore.IgnoredBy(rule.ignorePatterns, os))
    ensures !planned ==>
              !ok && SidesOf(local.tree, drive.Contents(), remote) == old(SidesOf(local.tree, drive.Contents(), remote))
    ensures planned ==>
              && Planned(plan, PolicyOf(rule, rule.mode, os), old(SidesOf(local.tree, drive.Contents(), remote)),
                         SumsOf(local.sum, drive.Sum(), remote))
              && RanLocked(old(lock.Available()), plan, n, local, drive, remote, stamp,
                           old(SidesOf(local.tree, drive.Contents(), remote)), old(drive.cache), old(drive.Valid()), ok,
                           Ignore.IgnoredBy(rule.ignorePatterns, os))
    ensures planned && old(lock.Available()) ==> lock.dir.file == LockProtocol.Absent
  {
    ghost var had, t := drive.cache, drive.Contents();
    TreeWellFormed(drive.service.items, Parts(drive.root));
    var planning := PlanWithDrive(rule, local, drive, remote, os, had, t);
    if planning.None? { return false, false, [], 0; }
    plan := planning.value.actions;
    ClearSides(local.tree, drive.service.items, drive.root, remote);
    Ignore.IgnoreClosed(rule.ignorePatterns, os);
    ok, n := RunLocked(planning.value, local, drive, remote, stamp, lock, now, PolicyOf(rule, rule.mode, os),
                       SumsOf(local.sum, drive.Sum(), remote), had, t);
    planned := true;
  }

  lemma ClearSides(local: Tree, items: Items, root: string, remote: Direction)
    requires Proper(items) && root != "" && forall p :: p in local ==> Clean(p)
    ensures AllClean(SidesOf(local, TreeOf(items, Parts(root)), remote))
  {
    forall p | p in TreeOf(items, Parts(root)) ensures Clean(p) {
      TreeAt(items, Parts(root), p);
    }
  }
}
