/** The pruned recursive listing (`listAllFiles` of package `rule`). */
module Walk {
  import opened Domain
  import opened Paths
  import opened Trees
  import opened Adapter
  import PlannerSpec
  import Ignore

  /** `p` lies somewhere under directory `d`; the root is "". */
  predicate Under(p: string, d: string) {
    if d == "" then p != "" else Below(p, d)
  }

  /** Everything the tree holds under a directory: the unpruned walk. */
  ghost function Region(t: Tree, d: string): set<string> {
    set p | p in t && Under(p, d)
  }

  /** The listing is exactly the paths of `region` that are not ignored, each once, with its metadata, and
      every directory precedes what it contains. */
  ghost predicate Walked(files: seq<FileInfo>, region: set<string>, d: string, t: Tree, sum: Digest,
                         ignored: string -> bool) {
    && (forall i :: 0 <= i < |files| ==>
          var p := files[i].path; p in region && p in t && !ignored(p) && files[i] == Info(p, t[p], sum))
    && (forall p :: p in region && !ignored(p) ==> Shows(files, p))
    && (forall i, j :: 0 <= i < j < |files| ==> files[i].path != files[j].path)
    && (forall j, q :: 0 <= j < |files| && Below(files[j].path, q) && Under(q, d) ==> Shows(files[..j], q))
  }

  lemma ShowsMore(a: seq<FileInfo>, b: seq<FileInfo>, p: string)
    requires Shows(a, p) || Shows(b, p)
    ensures Shows(a + b, p)
  {
    if Shows(a, p) {
      var i :| 0 <= i < |a| && a[i].path == p;
      assert (a + b)[i].path == p;
    } else {
      var i :| 0 <= i < |b| && b[i].path == p;
      assert (a + b)[|a| + i].path == p;
    }
  }

  lemma WalkedAppend(a: seq<FileInfo>, ra: set<string>, b: seq<FileInfo>, rb: set<string>, d: string, t: Tree,
                     sum: Digest, ignored: string -> bool)
    requires Walked(a, ra, d, t, sum, ignored) && Walked(b, rb, d, t, sum, ignored) && ra !! rb
    ensures Walked(a + b, ra + rb, d, t, sum, ignored)
  {
    forall p | p in ra + rb && !ignored(p) ensures Shows(a + b, p) {
      ShowsMore(a, b, p);
    }
    forall j, q | 0 <= j < |a + b| && Below((a + b)[j].path, q) && Under(q, d) ensures Shows((a + b)[..j], q) {
      if j < |a| {
        assert (a + b)[..j] == a[..j];
      } else {
        assert (a + b)[..j] == a + b[..j - |a|];
        ShowsMore(a, b[..j - |a|], q);
      }
    }
  }

  /** Between a directory and its own entry there is nothing. */
  lemma NothingBetween(c: string, q: string, d: string)
    requires ChildOf(c, d) && Below(c, q)
    ensures !Under(q, d)
  {
  }

  /** Every path under a directory is one of its entries or lies below one of them. */
  lemma {:induction false} FirstStep(p: string, d: string) returns (c: string)
    requires Under(p, d) && !Absolute(p)
    ensures ChildOf(c, d) && (p == c || Below(p, c))
    decreases |p|
  {
    if ChildOf(p, d) {
      c := p;
    } else {
      var q := Parent(p);
      ParentIsAbove(p);
      var k := if d == "" then 0 else |d| + 1;
      var i :| 0 <= i < |p[k..]| && p[k..][i] == '/';
      assert p[k + i] == '/';
      assert forall j :: |q| < j < |p| ==> p[j] == p[|q| + 1..][j - |q| - 1] != '/';
      assert d != "" ==> |d| < |q|;
      if d != "" { AncestorsAreLinear(p, q, d); }
      c := FirstStep(q, d);
      if q != c { BelowTransitive(p, q, c); }
    }
  }

  /** A region is the entries with their own regions. */
  lemma RegionByEntries(t: Tree, d: string, entries: set<string>, p: string)
    requires WellFormed(t) && forall c :: c in entries <==> c in t && ChildOf(c, d)
    ensures p in Region(t, d) <==> exists c :: c in entries && p in {c} + Region(t, c)
  {
    if p in Region(t, d) {
      EntriesAreRelative(t, p);
      var c := FirstStep(p, d);
      assert c in entries && p in {c} + Region(t, c);
    }
    if c :| c in entries && p in {c} + Region(t, c) {
      assert c != "";
      if d != "" && p != c { BelowTransitive(p, c, d); }
      EntriesAreRelative(t, p);
    }
  }

  /** One entry with everything listed under it is a listing of its part of the region. */
  lemma WalkedEntry(item: FileInfo, sub: seq<FileInfo>, d: string, t: Tree, sum: Digest, ignored: string -> bool)
    requires WellFormed(t) && ChildOf(item.path, d) && item.path in t && !ignored(item.path)
    requires item == Info(item.path, t[item.path], sum)
    requires Walked(sub, Region(t, item.path), item.path, t, sum, ignored)
    ensures Walked([item] + sub, {item.path} + Region(t, item.path), d, t, sum, ignored)
  {
    var c, files := item.path, [item] + sub;
    assert files[0] == item;
    assert c != "";
    forall p | p in {c} + Region(t, c) && !ignored(p) ensures Shows(files, p) {
      if p != c { ShowsMore([item], sub, p); }
    }
    forall j, q | 0 <= j < |files| && Below(files[j].path, q) && Under(q, d) ensures Shows(files[..j], q) {
      if j == 0 {
        NothingBetween(c, q, d);
      } else {
        assert files[..j] == [item] + sub[..j - 1];
        EntryPrecedes(item, sub, j - 1, d, q);
      }
    }
  }

  lemma EntryPrecedes(item: FileInfo, sub: seq<FileInfo>, j: nat, d: string, q: string)
    requires j < |sub| && ChildOf(item.path, d) && Below(sub[j].path, item.path)
    requires Below(sub[j].path, q) && Under(q, d)
    requires Under(q, item.path) ==> Shows(sub[..j], q)
    ensures Shows([item] + sub[..j], q)
  {
    var c, p := item.path, sub[j].path;
    assert ([item] + sub[..j])[0] == item;
    if q != c {
      if |q| < |c| {
        AncestorsAreLinear(p, c, q);
        NothingBetween(c, q, d);
      } else {
        AncestorsAreLinear(p, q, c);
        ShowsMore([item], sub[..j], q);
      }
    }
  }

  /** Nothing that is not ignored is lost where the walk does not go. */
  lemma WalkedNothing(region: set<string>, d: string, t: Tree, sum: Digest, ignored: string -> bool)
    requires forall p :: p in region ==> ignored(p)
    ensures Walked([], region, d, t, sum, ignored)
  {
  }

  /** `region` is the part of the directory that the entries handled so far account for. */
  ghost predicate Covers(region: set<string>, t: Tree, done: set<string>) {
    forall p :: p in region <==> exists c :: c in done && p in {c} + Region(t, c)
  }

  lemma CoversNext(region: set<string>, t: Tree, done: set<string>, c: string, d: string)
    requires Covers(region, t, done) && ChildOf(c, d) && c !in done && forall b :: b in done ==> ChildOf(b, d)
    requires c != ""
    ensures var part := {c} + Region(t, c); region !! part && Covers(region + part, t, done + {c})
  {
  }

  /** The walk of one directory after some of its entries: `done` are handled, `region` is their part. */
  ghost predicate Handled(files: seq<FileInfo>, region: set<string>, done: set<string>, d: string, t: Tree, sum: Digest,
                          ignored: string -> bool) {
    && (forall c :: c in done ==> c in t && ChildOf(c, d))
    && Covers(region, t, done)
    && Walked(files, region, d, t, sum, ignored)
  }

  lemma HandledNext(files: seq<FileInfo>, region: set<string>, done: set<string>, c: string, added: seq<FileInfo>,
                    part: set<string>, d: string, t: Tree, sum: Digest, ignored: string -> bool)
    requires Handled(files, region, done, d, t, sum, ignored)
    requires c != "" && c in t && ChildOf(c, d) && c !in done && part == {c} + Region(t, c)
    requires Walked(added, part, d, t, sum, ignored)
    ensures Handled(files + added, region + part, done + {c}, d, t, sum, ignored)
  {
    var all, whole := files + added, region + part;
    assert region !! part && Covers(whole, t, done + {c}) by {
      CoversNext(region, t, done, c, d);
    }
    assert Walked(all, whole, d, t, sum, ignored) by {
      WalkedAppend(files, region, added, part, d, t, sum, ignored);
    }
  }

  lemma HandledAll(files: seq<FileInfo>, region: set<string>, done: set<string>, d: string, t: Tree, sum: Digest,
                   ignored: string -> bool)
    requires WellFormed(t) && Handled(files, region, done, d, t, sum, ignored)
    requires forall c :: c in t && ChildOf(c, d) ==> c in done
    ensures Walked(files, Region(t, d), d, t, sum, ignored)
  {
    forall p ensures p in region <==> p in Region(t, d) {
      RegionByEntries(t, d, done, p);
    }
    assert region == Region(t, d);
  }

  /** Somewhere below `d` the walk comes to a directory that the adapter refuses to list. */
  ghost predicate Unlistable(t: Tree, d: string, ignored: string -> bool) {
    exists p :: p in t && Under(p, d) && RefusedDir(t, p, ignored)
  }

  predicate RefusedDir(t: Tree, p: string, ignored: string -> bool)
    requires p in t
  {
    t[p].Dir? && Refused(p) && !ignored(p)
  }

  /** The walk of entry `c` fails: it is not ignored, and it or something below it is refused. */
  ghost predicate EntryFails(t: Tree, c: string, ignored: string -> bool)
    requires c in t
  {
    !ignored(c) && t[c].Dir? && (Refused(c) || Unlistable(t, c, ignored))
  }

  ghost predicate NoneFails(t: Tree, done: set<string>, ignored: string -> bool) {
    forall c :: c in done && c in t ==> !EntryFails(t, c, ignored)
  }

  /** A directory's walk fails if the walk of one of its entries does. */
  lemma FailingEntry(t: Tree, d: string, c: string, ignored: string -> bool)
    requires WellFormed(t) && c in t && ChildOf(c, d) && EntryFails(t, c, ignored)
    ensures Unlistable(t, d, ignored)
  {
    if Refused(c) {
      assert Under(c, d) && RefusedDir(t, c, ignored);
    } else {
      var p :| p in t && Under(p, c) && RefusedDir(t, p, ignored);
      if d != "" { BelowTransitive(p, c, d); }
      assert Under(p, d);
    }
  }

  /** And only then. */
  lemma FailingWalk(t: Tree, d: string, done: set<string>, ignored: string -> bool)
    requires WellFormed(t) && PlannerSpec.Closed(ignored)
    requires NoneFails(t, done, ignored) && forall c :: c in t && ChildOf(c, d) ==> c in done
    ensures !Unlistable(t, d, ignored)
  {
    forall p | p in t && Under(p, d) ensures !RefusedDir(t, p, ignored) {
      EntriesAreRelative(t, p);
      var c := FirstStep(p, d);
      assert c in t && !EntryFails(t, c, ignored);
      assert p != c ==> Under(p, c);
    }
  }

  lemma SkippedEntry(c: string, d: string, t: Tree, sum: Digest, patterns: seq<string>, os: Ignore.Platform)
    requires WellFormed(t) && c in t && Ignore.Ignored(c, patterns, os)
    ensures Walked([], {c} + Region(t, c), d, t, sum, Ignore.IgnoredBy(patterns, os))
  {
    EntriesAreRelative(t, c);
    IgnoredEntry(c, t, patterns, os);
    WalkedNothing({c} + Region(t, c), d, t, sum, Ignore.IgnoredBy(patterns, os));
  }

  lemma LeafEntry(item: FileInfo, d: string, t: Tree, sum: Digest, ignored: string -> bool)
    requires WellFormed(t) && item.path in t && ChildOf(item.path, d) && !ignored(item.path) && t[item.path].File?
    requires item == Info(item.path, t[item.path], sum)
    ensures Walked([item], {item.path} + Region(t, item.path), d, t, sum, ignored)
  {
    NothingBelowFile(t, item.path);
    WalkedEntry(item, [], d, t, sum, ignored);
    assert [item] + [] == [item];
  }

  /** The walk of one directory after the first `i` of its items, none of which failed. */
  ghost predicate HandledUpTo(files: seq<FileInfo>, items: seq<FileInfo>, i: nat, d: string, t: Tree, sum: Digest,
                              ignored: string -> bool)
    requires i <= |items|
  {
    exists region ::
      Handled(files, region, PathsOf(items[..i]), d, t, sum, ignored) && NoneFails(t, PathsOf(items[..i]), ignored)
  }

  ghost function PathsOf(items: seq<FileInfo>): set<string> {
    set i | 0 <= i < |items| :: items[i].path
  }

  lemma HandledNone(items: seq<FileInfo>, d: string, t: Tree, sum: Digest, ignored: string -> bool)
    ensures HandledUpTo([], items, 0, d, t, sum, ignored)
  {
    assert Handled([], {}, PathsOf(items[..0]), d, t, sum, ignored);
  }

  lemma HandledOneMore(files: seq<FileInfo>, items: seq<FileInfo>, i: nat, added: seq<FileInfo>, d: string, t: Tree,
                       sum: Digest, ignored: string -> bool)
    requires WellFormed(t) && ListsEntries(items, t, d, sum) && i < |items|
    requires HandledUpTo(files, items, i, d, t, sum, ignored) && !EntryFails(t, items[i].path, ignored)
    requires Walked(added, {items[i].path} + Region(t, items[i].path), d, t, sum, ignored)
    ensures HandledUpTo(files + added, items, i + 1, d, t, sum, ignored)
  {
    var done, c := PathsOf(items[..i]), items[i].path;
    var region :| Handled(files, region, done, d, t, sum, ignored) && NoneFails(t, done, ignored);
    EntriesAreRelative(t, c);
    HandledNext(files, region, done, c, added, {c} + Region(t, c), d, t, sum, ignored);
    PathsNext(items, i);
  }

  lemma PathsNext(items: seq<FileInfo>, i: nat)
    requires i < |items|
    ensures PathsOf(items[..i + 1]) == PathsOf(items[..i]) + {items[i].path}
  {
    assert items[..i + 1] == items[..i] + [items[i]];
    assert items[..i + 1][i].path == items[i].path;
    assert forall j :: 0 <= j < i ==> items[..i + 1][j] == items[..i][j];
  }

  lemma HandledEach(files: seq<FileInfo>, items: seq<FileInfo>, d: string, t: Tree, sum: Digest,
                    ignored: string -> bool)
    requires WellFormed(t) && ListsEntries(items, t, d, sum) && PlannerSpec.Closed(ignored)
    requires HandledUpTo(files, items, |items|, d, t, sum, ignored)
    ensures Walked(files, Region(t, d), d, t, sum, ignored) && !Unlistable(t, d, ignored)
  {
    var done := PathsOf(items[..|items|]);
    assert items[..|items|] == items;
    var region :| Handled(files, region, done, d, t, sum, ignored) && NoneFails(t, done, ignored);
    forall c | c in t && ChildOf(c, d) ensures c in done {
      assert Shows(items, c);
    }
    HandledAll(files, region, done, d, t, sum, ignored);
    FailingWalk(t, d, done, ignored);
  }

  /** One entry: nothing if it is ignored, itself and its own walk if it is a directory, itself otherwise. */
  method ListEntry(adapter: LocalAdapter, item: FileInfo, prefix: string, patterns: seq<string>, os: Ignore.Platform)
    returns (files: Option<seq<FileInfo>>)
    requires WellFormed(adapter.tree) && item.path in adapter.tree && ChildOf(item.path, prefix)
    requires item == Info(item.path, adapter.tree[item.path], adapter.sum)
    ensures files.None? <==> EntryFails(adapter.tree, item.path, Ignore.IgnoredBy(patterns, os))
    ensures files.Some? ==>
              Walked(files.value, {item.path} + Region(adapter.tree, item.path), prefix, adapter.tree, adapter.sum,
                     Ignore.IgnoredBy(patterns, os))
    decreases Region(adapter.tree, prefix), 0
  {
    ghost var t, sum, ignored := adapter.tree, adapter.sum, Ignore.IgnoredBy(patterns, os);
    var skip := Ignore.ShouldIgnore(item.path, patterns, os);
    if skip {
      SkippedEntry(item.path, prefix, t, sum, patterns, os);
      return Some([]);
    }
    if item.IsDir() {
      SmallerRegion(t, item.path, prefix);
      EntriesAreRelative(t, item.path);
      var subFiles := ListAllFiles(adapter, item.path, patterns, os);
      if subFiles.None? { return None; }
      WalkedEntry(item, subFiles.value, prefix, t, sum, ignored);
      return Some([item] + subFiles.value);
    }
    LeafEntry(item, prefix, t, sum, ignored);
    return Some([item]);
  }

  /** The listing of everything below a directory, or a failure if the walk comes to a directory that cannot be
      listed. */
  method ListAllFiles(adapter: LocalAdapter, prefix: string, patterns: seq<string>, os: Ignore.Platform)
    returns (allFiles: Option<seq<FileInfo>>)
    requires WellFormed(adapter.tree)
    ensures allFiles.None? <==>
              || Refused(prefix) || !IsDirectory(adapter.tree, prefix)
              || Unlistable(adapter.tree, prefix, Ignore.IgnoredBy(patterns, os))
    ensures allFiles.Some? ==>
              Walked(allFiles.value, Region(adapter.tree, prefix), prefix, adapter.tree, adapter.sum,
                     Ignore.IgnoredBy(patterns, os))
    decreases Region(adapter.tree, prefix), 1
  {
    ghost var t, sum, ignored := adapter.tree, adapter.sum, Ignore.IgnoredBy(patterns, os);
    var listed := adapter.List(prefix);
    if listed.None? { return None; }
    var items := listed.value;
    var files := [];
    HandledNone(items, prefix, t, sum, ignored);
    for i := 0 to |items|
      invariant HandledUpTo(files, items, i, prefix, t, sum, ignored)
    {
      var added := ListEntry(adapter, items[i], prefix, patterns, os);
      if added.None? {
        FailingEntry(t, prefix, items[i].path, ignored);
        return None;
      }
      HandledOneMore(files, items, i, added.value, prefix, t, sum, ignored);
      files := files + added.value;
    }
    Ignore.IgnoreClosed(patterns, os);
    HandledEach(files, items, prefix, t, sum, ignored);
    return Some(files);
  }

  lemma IgnoredEntry(c: string, t: Tree, patterns: seq<string>, os: Ignore.Platform)
    requires c != "" && Ignore.Ignored(c, patterns, os)
    ensures forall p :: p in {c} + Region(t, c) ==> Ignore.IgnoredBy(patterns, os)(p)
  {
    Ignore.IgnoreClosed(patterns, os);
  }

  lemma SmallerRegion(t: Tree, c: string, d: string)
    requires WellFormed(t) && c in t && ChildOf(c, d)
    ensures Region(t, c) < Region(t, d)
  {
    assert c in Region(t, d) && c !in Region(t, c);
    forall p | p in Region(t, c) ensures p in Region(t, d) {
      if d != "" { BelowTransitive(p, c, d); }
    }
  }

  lemma NothingBelowFile(t: Tree, c: string)
    requires WellFormed(t) && c in t && t[c].File?
    ensures Region(t, c) == {}
  {
  }
}
