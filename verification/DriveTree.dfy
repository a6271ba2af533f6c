/** The directory tree that a folder on Google Drive shows, and what changes to the items do to it. */
module DriveTree {
  import opened Domain
  import opened Paths
  import opened Trees
  import opened Adapter
  import opened DriveItems

  /** A relative path as `path.Clean` leaves it: no empty component, no "." and no "..". */
  ghost predicate Clean(p: string) {
    p != "" && forall x :: x in Split(p) ==> x != "" && x != "." && x != ".."
  }

  lemma CleanAbove(p: string, q: string)
    requires Clean(p) && Below(p, q)
    ensures Clean(q)
  {
    assert "" in Split("") by { assert Split("")[0] == ""; }
    SplitBelow(p, q);
    forall x | x in Split(q) ensures x in Split(p) {
      var i :| 0 <= i < |Split(q)| && Split(q)[i] == x;
      assert Split(p)[i] == x;
    }
  }

  /** The item at a relative path below the folder that `base` leads to. */
  ghost function At(items: Items, base: seq<string>, p: string): (id: Option<Id>)
    ensures id.Some? ==> id.value in items
  {
    ResolveLast(items, base + Split(p)[..|Split(p)| - 1], Split(p)[|Split(p)| - 1]);
    assert base + Split(p) == base + Split(p)[..|Split(p)| - 1] + [Split(p)[|Split(p)| - 1]];
    Resolve(items, base + Split(p))
  }

  function NodeOf(item: Item): Node {
    if item.folder then Dir else File(item.bytes, item.modTime)
  }

  ghost function Shown(items: Items, base: seq<string>, p: string): Option<Node> {
    var id := At(items, base, p);
    if id.None? then None else Some(NodeOf(items[id.value]))
  }

  /** The relative path of an item, if it lies below the folder. */
  ghost function PathTo(items: Items, base: seq<string>, a: Id): (r: Option<string>)
    ensures r.Some? ==> Clean(r.value) && At(items, base, r.value) == Some(a)
    ensures r.None? ==> forall p :: Clean(p) ==> At(items, base, p) != Some(a)
  {
    if p :| Clean(p) && At(items, base, p) == Some(a) then Some(p) else None
  }

  /** Everything below the folder, by its relative path. */
  ghost function TreeOf(items: Items, base: seq<string>): Tree {
    var paths := set a | a in items && PathTo(items, base, a).Some? :: PathTo(items, base, a).value;
    map p | p in paths :: Shown(items, base, p).value
  }

  /** Two paths of one item are one path. */
  lemma AtInjective(items: Items, base: seq<string>, p: string, q: string)
    requires Proper(items) && At(items, base, p).Some? && At(items, base, p) == At(items, base, q)
    ensures p == q
  {
    ResolveInjective(items, base + Split(p), base + Split(q));
    assert (base + Split(p))[|base|..] == Split(p) && (base + Split(q))[|base|..] == Split(q);
    SplitPrefix(p, q);
  }

  /** The tree holds at each clean path what the walk finds there. */
  lemma TreeAt(items: Items, base: seq<string>, p: string)
    requires Proper(items)
    ensures NodeAt(TreeOf(items, base), p) == if Clean(p) then Shown(items, base, p) else None
  {
    if Clean(p) && At(items, base, p).Some? {
      var a := At(items, base, p).value;
      AtInjective(items, base, p, PathTo(items, base, a).value);
    }
  }

  /** The folder itself is there. */
  ghost predicate Rooted(items: Items, base: seq<string>) {
    Resolve(items, base).Some? && IsFolder(items, Resolve(items, base).value)
  }

  lemma TreeWellFormed(items: Items, base: seq<string>)
    requires Proper(items)
    ensures WellFormed(TreeOf(items, base))
  {
    var t := TreeOf(items, base);
    forall p, q | p in t && Below(p, q) ensures q in t && t[q].Dir? {
      TreeAt(items, base, p);
      TreeAt(items, base, q);
      CleanAbove(p, q);
      FolderAbove(items, base, p, q);
    }
    TreeAt(items, base, "");
  }

  lemma FolderAbove(items: Items, base: seq<string>, p: string, q: string)
    requires Proper(items) && At(items, base, p).Some? && Below(p, q)
    ensures Shown(items, base, q) == Some(Dir)
  {
    SplitBelow(p, q);
    var parts := base + Split(p);
    assert parts[..|base + Split(q)|] == base + Split(q);
    PrefixIsFolder(items, parts, |base + Split(q)|);
    assert At(items, base, q) == Resolve(items, base + Split(q));
  }

  /** Levels of the path below the folder correspond to the path and the directories above it. */
  lemma LevelOf(base: seq<string>, p: string, n: nat) returns (q: string)
    requires |base| < n <= |base| + |Split(p)|
    ensures (base + Split(p))[..n] == base + Split(q)
    ensures if n == |base| + |Split(p)| then q == p else Below(p, q)
  {
    var m := n - |base|;
    q := JoinFirst(Split(p), m);
    SplitJoinFirst(p, m);
    JoinFirstIsAbove(p, m);
  }

  lemma LevelsOf(base: seq<string>, p: string, q: string)
    ensures base + Split(q) <= base + Split(p) <==> q == p || Below(p, q)
    ensures base + Split(q) == base + Split(p) <==> q == p
  {
    SplitPrefix(p, q);
    assert (base + Split(q))[|base|..] == Split(q) && (base + Split(p))[|base|..] == Split(p);
    if Split(q) <= Split(p) { assert (base + Split(p))[..|base + Split(q)|] == base + Split(q); }
    if base + Split(q) <= base + Split(p) {
      assert (base + Split(p))[..|base + Split(q)|][|base|..] == Split(p)[..|Split(q)|];
    }
  }

  /** A file stands above a path on the drive exactly when the tree shows one. */
  lemma BlockedInTree(items: Items, base: seq<string>, p: string)
    requires Proper(items) && Rooted(items, base) && Clean(p)
    ensures BlockedLevel(items, base + Split(p)) <==> FileAbove(TreeOf(items, base), p)
  {
    var parts, t := base + Split(p), TreeOf(items, base);
    if BlockedLevel(items, parts) {
      var n :| 0 <= n < |parts| && FileAt(items, parts[..n]);
      var q := FileInTree(items, base, p, n);
    }
    if FileAbove(t, p) {
      var q :| q in t && t[q].File? && Below(p, q);
      FileOnDrive(items, base, p, q);
    }
  }

  /** A file at a level of the path shows in the tree. */
  lemma FileInTree(items: Items, base: seq<string>, p: string, n: nat) returns (q: string)
    requires Proper(items) && Rooted(items, base) && Clean(p)
    requires n <= |base + Split(p)| && FileAt(items, (base + Split(p))[..n])
    ensures |base| < n && (base + Split(p))[..n] == base + Split(q)
    ensures Clean(q) && (if n == |base + Split(p)| then q == p else Below(p, q))
    ensures q in TreeOf(items, base) && TreeOf(items, base)[q].File?
  {
    var parts := base + Split(p);
    assert parts[..|base|] == base;
    if n < |base| {
      assert parts[..n] == base[..n];
      PrefixIsFolder(items, base, n);
    } else if n > |base| {
      q := LevelOf(base, p, n);
      if q != p { CleanAbove(p, q); }
      TreeAt(items, base, q);
      assert At(items, base, q) == Resolve(items, parts[..n]);
    }
  }

  /** A file in the tree at or above the path stands at a level of it. */
  lemma FileOnDrive(items: Items, base: seq<string>, p: string, q: string)
    requires Proper(items) && (q == p || Below(p, q))
    requires q in TreeOf(items, base) && TreeOf(items, base)[q].File?
    ensures var n := |base + Split(q)|;
            && n <= |base + Split(p)| && (q != p ==> n < |base + Split(p)|)
            && (base + Split(p))[..n] == base + Split(q) && FileAt(items, (base + Split(p))[..n])
  {
    TreeAt(items, base, q);
    LevelsOf(base, p, q);
    assert At(items, base, q) == Resolve(items, base + Split(q));
  }

  // ----- what changing the items does to the tree

  lemma ShownLater(items: Items, after: Items, base: seq<string>, q: string)
    requires Extends(after, items) && Resolve(after, base + Split(q)) == Resolve(items, base + Split(q))
    ensures Shown(after, base, q) == Shown(items, base, q)
  {
    assert At(after, base, q) == At(items, base, q);
  }

  /** The tree after the levels of a path were made. */
  ghost predicate LevelsMade(items: Items, after: Items, parts: seq<string>) {
    && Extends(after, items) && Fills(after, items, parts)
    && Resolve(after, parts).Some?
  }

  lemma MadeAt(items: Items, after: Items, base: seq<string>, p: string, q: string)
    requires Proper(items) && Proper(after) && Clean(p) && LevelsMade(items, after, base + Split(p))
    ensures NodeAt(TreeOf(after, base), q) ==
            if q == p then Shown(after, base, p)
            else if Below(p, q) then Some(Dir) else NodeAt(TreeOf(items, base), q)
  {
    TreeAt(items, base, q);
    TreeAt(after, base, q);
    LevelsOf(base, p, q);
    if Below(p, q) {
      CleanAbove(p, q);
      FolderAbove(after, base, p, q);
    } else if q != p {
      ShownLater(items, after, base, q);
    }
  }

  /** Making a folder with its parents. */
  lemma MadeFolders(items: Items, after: Items, base: seq<string>, p: string)
    requires Proper(items) && Proper(after) && Clean(p) && LevelsMade(items, after, base + Split(p))
    requires Shown(after, base, p) == Some(Dir)
    requires !Refused(p) && !FileAbove(TreeOf(items, base), p)
    requires p in TreeOf(items, base) ==> TreeOf(items, base)[p].Dir?
    ensures MkdirAll(TreeOf(items, base), p) == Outcome(TreeOf(after, base), true)
  {
    var t, made := TreeOf(items, base), TreeOf(after, base);
    TreeWellFormed(items, base);
    MkdirAllMakes(t, p);
    var u := MkdirAll(t, p).tree;
    forall q ensures NodeAt(made, q) == NodeAt(u, q) {
      MadeAt(items, after, base, p, q);
    }
    SameNodes(made, u);
  }

  /** What a write to Drive does: parents and content, unless the path is refused, a file is above it or a folder at
      it. There is no temporary file. */
  function Store(t: Tree, p: string, bytes: Bytes, modTime: int): Outcome {
    if Refused(p) || FileAbove(t, p) || (p in t && t[p].Dir?) then Outcome(t, false)
    else Outcome(WithDirs(t, Ancestors(p))[p := File(bytes, modTime)], true)
  }

  /** Where the temporary name is free, that is what a local write does. */
  lemma StoreIsWrite(t: Tree, p: string, bytes: Bytes, modTime: int)
    requires WellFormed(t) && p != "" && p + TEMP_SUFFIX !in t
    ensures Store(t, p, bytes, modTime) == Write(t, p, bytes, modTime)
  {
    if !Refused(p) && !FileAbove(t, p) {
      var made := WithDirs(t, Ancestors(p));
      assert made - {p + TEMP_SUFFIX} == made;
      if p in t { assert made == t; }
    }
  }

  /** Making a file with its parents. */
  lemma MadeFile(items: Items, after: Items, base: seq<string>, p: string, bytes: Bytes, modTime: int)
    requires Proper(items) && Proper(after) && Clean(p) && LevelsMade(items, after, base + Split(p))
    requires Shown(after, base, p) == Some(File(bytes, modTime))
    requires !Refused(p) && !FileAbove(TreeOf(items, base), p) && p !in TreeOf(items, base)
    ensures Store(TreeOf(items, base), p, bytes, modTime) == Outcome(TreeOf(after, base), true)
  {
    var t, made := TreeOf(items, base), TreeOf(after, base);
    TreeWellFormed(items, base);
    var u := Store(t, p, bytes, modTime).tree;
    forall q ensures NodeAt(made, q) == NodeAt(u, q) {
      MadeAt(items, after, base, p, q);
    }
    SameNodes(made, u);
  }

  /** New content for a file. */
  lemma ChangedFile(items: Items, base: seq<string>, p: string, bytes: Bytes, modTime: int)
    requires Proper(items) && Clean(p) && At(items, base, p).Some?
    requires !items[At(items, base, p).value].folder
    ensures var id := At(items, base, p).value;
            var after := items[id := items[id].(bytes := bytes, modTime := modTime)];
            TreeOf(after, base) == TreeOf(items, base)[p := File(bytes, modTime)]
  {
    var id := At(items, base, p).value;
    var after := items[id := items[id].(bytes := bytes, modTime := modTime)];
    ChangeContent(items, after);
    var u := TreeOf(items, base)[p := File(bytes, modTime)];
    forall q ensures NodeAt(TreeOf(after, base), q) == NodeAt(u, q) {
      TreeAt(items, base, q);
      TreeAt(after, base, q);
      assert At(after, base, q) == At(items, base, q);
      if At(items, base, q) == Some(id) { AtInjective(items, base, p, q); }
    }
    SameNodes(TreeOf(after, base), u);
  }

  /** Writing over a file or onto a directory. */
  lemma StoreOver(t: Tree, p: string, bytes: Bytes, modTime: int)
    requires WellFormed(t) && p in t && !Refused(p)
    ensures Store(t, p, bytes, modTime) ==
            if t[p].File? then Outcome(t[p := File(bytes, modTime)], true) else Outcome(t, false)
  {
    assert WithDirs(t, Ancestors(p)) == t;
  }

  /** What making a directory on Drive does when no second item of a name comes of it: as on a local tree, except that a
      file at the path, once its ID is known, passes for the folder. */
  function MakeFolder(t: Tree, p: string): Outcome {
    if !Refused(p) && p in t && t[p].File? then Outcome(t, true) else MkdirAll(t, p)
  }

  /** A tree without an entry and everything below it. */
  function Sweep(t: Tree, p: string): Tree {
    map q | q in t && q != p && !Below(q, p) :: t[q]
  }

  /** Deleting an item with everything below it. */
  lemma SweptTree(items: Items, after: Items, base: seq<string>, p: string)
    requires Proper(items) && Proper(after) && Extends(items, after) && CutAt(after, items, base + Split(p))
    ensures TreeOf(after, base) == Sweep(TreeOf(items, base), p)
  {
    forall q ensures NodeAt(TreeOf(after, base), q) == NodeAt(Sweep(TreeOf(items, base), p), q) {
      TreeAt(items, base, q);
      TreeAt(after, base, q);
      LevelsOf(base, q, p);
      if q != p && !Below(q, p) {
        ShownLater(after, items, base, q);
      }
    }
    SameNodes(TreeOf(after, base), Sweep(TreeOf(items, base), p));
  }

  // ----- listing a folder

  /** A name a path can hold. */
  predicate CleanName(name: string) {
    name != "" && name != "." && name != ".." && '/' !in name
  }

  ghost predicate Tidy(items: Items) {
    forall a :: a in items ==> CleanName(items[a].name)
  }

  /** path.Join of a directory and a name in it. */
  function Entry(d: string, name: string): string {
    if d == "" then name else d + "/" + name
  }

  /** The parts of a directory; the root has none. */
  function DirParts(d: string): seq<string> {
    if d == "" then [] else Split(d)
  }

  lemma {:induction false} OnePart(name: string)
    requires name != "" && '/' !in name
    ensures Split(name) == [name]
  {
    var init, last := name[..|name| - 1], name[|name| - 1];
    assert name == init + [last];
    SplitGrows(init, last);
    if init != "" { OnePart(init); }
  }

  lemma EntryParts(d: string, name: string)
    requires CleanName(name) && (d == "" || Clean(d))
    ensures Split(Entry(d, name)) == DirParts(d) + [name] && Clean(Entry(d, name)) && ChildOf(Entry(d, name), d)
  {
    OnePart(name);
    if d != "" {
      SplitJoined(d, name);
      assert (d + "/" + name)[|d| + 1..] == name;
      assert ChildOf(Entry(d, name), d);
    }
  }

  /** An entry of a directory is its path with one more name. */
  lemma EntryOf(p: string, d: string) returns (name: string)
    requires Clean(p) && ChildOf(p, d)
    ensures p == Entry(d, name) && '/' !in name && name != "" && Split(p) == DirParts(d) + [name] && CleanName(name)
  {
    if d == "" {
      name := p;
      OnePart(name);
    } else {
      name := p[|d| + 1..];
      assert p == d + "/" + name;
      SplitJoined(d, name);
      assert Split(p)[|Split(p)| - 1] in Split(p);
      assert Split(p)[|Split(p)| - 1] == Split(name)[|Split(name)| - 1];
      assert Split("")[|Split("")| - 1] == "";
      OnePart(name);
    }
    assert Split(p)[|Split(p)| - 1] == name && name in Split(p);
  }

  /** The item at an entry of a folder is the folder's child of that name. */
  lemma EntryIsChild(items: Items, base: seq<string>, d: string, name: string)
    requires CleanName(name) && (d == "" || Clean(d))
    ensures At(items, base, Entry(d, name)) ==
            var up := Resolve(items, base + DirParts(d)); if up.None? then None else Child(items, up.value, name)
  {
    EntryParts(d, name);
    assert base + (DirParts(d) + [name]) == base + DirParts(d) + [name];
    ResolveLast(items, base + DirParts(d), name);
  }

  /** What the adapter reports of the items under a folder. */
  ghost predicate Reports(infos: seq<FileInfo>, ids: seq<Id>, items: Items, d: string, sum: Digest) {
    && |infos| == |ids|
    && forall i :: 0 <= i < |ids| ==>
         ids[i] in items && infos[i] == Info(Entry(d, items[ids[i]].name), NodeOf(items[ids[i]]), sum)
  }

  /** The reports of a folder's items are a listing of its directory in the tree. */
  lemma ReportsList(infos: seq<FileInfo>, ids: seq<Id>, items: Items, base: seq<string>, d: string, sum: Digest)
    requires Proper(items) && Tidy(items) && (d == "" || Clean(d)) && Reports(infos, ids, items, d, sum)
    requires Resolve(items, base + DirParts(d)).Some?
    requires forall a :: a in ids <==> a in items && items[a].parent == Resolve(items, base + DirParts(d)).value
    requires forall i, j :: 0 <= i < j < |ids| ==> ids[i] != ids[j]
    ensures ListsEntries(infos, TreeOf(items, base), d, sum)
  {
    var t, up := TreeOf(items, base), Resolve(items, base + DirParts(d)).value;
    forall i | 0 <= i < |infos|
      ensures infos[i].path in t && ChildOf(infos[i].path, d) && infos[i] == Info(infos[i].path, t[infos[i].path], sum)
      ensures At(items, base, infos[i].path) == Some(ids[i])
    {
      ReportedAt(items, base, d, ids[i]);
    }
    forall p | p in t && ChildOf(p, d) ensures Shows(infos, p) {
      var a := EntryReported(items, base, d, p);
      var i :| 0 <= i < |ids| && ids[i] == a;
      assert infos[i].path == p;
    }
  }

  lemma ReportedAt(items: Items, base: seq<string>, d: string, a: Id)
    requires Proper(items) && Tidy(items) && (d == "" || Clean(d)) && a in items
    requires Resolve(items, base + DirParts(d)) == Some(items[a].parent)
    ensures var p := Entry(d, items[a].name);
            && ChildOf(p, d) && At(items, base, p) == Some(a)
            && p in TreeOf(items, base) && TreeOf(items, base)[p] == NodeOf(items[a])
  {
    var name := items[a].name;
    EntryParts(d, name);
    EntryIsChild(items, base, d, name);
    ChildUnique(items, a, items[a].parent, name);
    TreeAt(items, base, Entry(d, name));
  }

  lemma EntryReported(items: Items, base: seq<string>, d: string, p: string) returns (a: Id)
    requires Proper(items) && Tidy(items) && (d == "" || Clean(d)) && p in TreeOf(items, base) && ChildOf(p, d)
    requires Resolve(items, base + DirParts(d)).Some?
    ensures a in items && items[a].parent == Resolve(items, base + DirParts(d)).value
    ensures p == Entry(d, items[a].name)
  {
    TreeAt(items, base, p);
    var name := EntryOf(p, d);
    EntryIsChild(items, base, d, name);
    a := At(items, base, p).value;
  }
}
