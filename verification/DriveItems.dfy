/** What Google Drive holds: items that know their parents, found by walking names from the root, and what creating,
    changing and deleting them does to every path. */
module DriveItems {
  import opened Domain
  import opened Paths
  import opened Trees

  type Id = nat
  const ROOT: Id := 0

  /** A folder's content and time are of no account. */
  datatype Item = Item(name: string, parent: Id, folder: bool, bytes: Bytes, modTime: int)

  /** What the drive holds, by ID; the root folder is not an item. */
  type Items = map<Id, Item>

  predicate IsChild(items: Items, a: Id, parent: Id, name: string) {
    a in items && items[a].parent == parent && items[a].name == name
  }

  predicate IsFolder(items: Items, id: Id) {
    id == ROOT || (id in items && items[id].folder)
  }

  predicate Hangs(items: Items, a: Id) {
    a in items ==> IsFolder(items, items[a].parent)
  }

  /** Items hang from the root or from folders, and siblings have different names. */
  ghost predicate Proper(items: Items) {
    && ROOT !in items
    && (forall a {:trigger Hangs(items, a)} :: Hangs(items, a))
    && (forall a, b, parent, name :: IsChild(items, a, parent, name) && IsChild(items, b, parent, name) ==> a == b)
  }

  ghost function Child(items: Items, parent: Id, name: string): (r: Option<Id>)
    ensures r.Some? ==> IsChild(items, r.value, parent, name)
    ensures r.None? ==> forall a :: !IsChild(items, a, parent, name)
  {
    if a :| IsChild(items, a, parent, name) then Some(a) else None
  }

  /** The walk from the root, name by name, without any cache. */
  ghost function Resolve(items: Items, parts: seq<string>): Option<Id> {
    if parts == [] then Some(ROOT)
    else
      var up := Resolve(items, parts[..|parts| - 1]);
      if up.None? then None else Child(items, up.value, parts[|parts| - 1])
  }

  lemma ResolveLast(items: Items, parts: seq<string>, name: string)
    ensures Resolve(items, parts + [name]) ==
            var up := Resolve(items, parts); if up.None? then None else Child(items, up.value, name)
  {
  }

  /** A walk that fails part of the way fails. */
  lemma {:induction false} ResolvePrefix(items: Items, parts: seq<string>, n: nat)
    requires n <= |parts| && Resolve(items, parts).Some?
    ensures Resolve(items, parts[..n]).Some?
  {
    if n < |parts| {
      var init := parts[..|parts| - 1];
      assert init[..n] == parts[..n];
      ResolvePrefix(items, init, n);
    } else {
      assert parts[..n] == parts;
    }
  }

  /** An item has one path. */
  lemma {:induction false} ResolveInjective(items: Items, p: seq<string>, q: seq<string>)
    requires Proper(items) && Resolve(items, p).Some? && Resolve(items, p) == Resolve(items, q)
    ensures p == q
  {
    if p != [] && q != [] {
      var n, m := |p| - 1, |q| - 1;
      ResolveInjective(items, p[..n], q[..m]);
      assert p == p[..n] + [p[n]] && q == q[..m] + [q[m]];
    }
  }

  // ----- full paths

  /** "/a/b": absolute, no empty component. */
  ghost predicate Canonical(path: string) {
    path != "" && path[0] == '/' && "" !in Split(path[1..])
  }

  function Parts(path: string): seq<string>
    requires path != ""
  {
    Split(path[1..])
  }

  function KeyOf(parts: seq<string>, n: nat): string
    requires 1 <= n <= |parts|
  {
    "/" + JoinFirst(parts, n)
  }

  lemma KeyParts(path: string, n: nat)
    requires Canonical(path) && 1 <= n <= |Parts(path)|
    ensures var key := KeyOf(Parts(path), n); Canonical(key) && Parts(key) == Parts(path)[..n]
    ensures n == |Parts(path)| ==> KeyOf(Parts(path), n) == path
  {
    var s := path[1..];
    SplitJoinFirst(s, n);
    var key := KeyOf(Parts(path), n);
    assert key[1..] == JoinFirst(Split(s), n);
    forall x | x in Split(s)[..n] ensures x in Split(s) {}
    if n == |Parts(path)| {
      JoinSplit(s);
      assert path == "/" + s;
    }
  }

  lemma PartsInjective(a: string, b: string)
    requires Canonical(a) && Canonical(b) && Parts(a) == Parts(b)
    ensures a == b
  {
    KeyParts(a, |Parts(a)|);
    KeyParts(b, |Parts(b)|);
  }

  // ----- changing the remote tree

  /** Sibling names are unique, so a child found is the child. */
  lemma ChildUnique(items: Items, a: Id, parent: Id, name: string)
    requires Proper(items) && IsChild(items, a, parent, name)
    ensures Child(items, parent, name) == Some(a)
  {
  }

  ghost predicate Grows(items: Items, grown: Items, c: Id, parent: Id, name: string) {
    && c !in items && c != ROOT && c in grown && grown == items[c := grown[c]]
    && IsChild(grown, c, parent, name) && Child(items, parent, name).None?
  }

  lemma ChildGrown(items: Items, grown: Items, c: Id, parent: Id, name: string, up: Id, last: string)
    requires Proper(items) && Proper(grown) && Grows(items, grown, c, parent, name)
    ensures Child(grown, up, last) == if up == parent && last == name then Some(c) else Child(items, up, last)
  {
    if up == parent && last == name {
      ChildUnique(grown, c, up, last);
    } else if Child(items, up, last).Some? {
      var a := Child(items, up, last).value;
      assert IsChild(grown, a, up, last);
      ChildUnique(grown, a, up, last);
    } else {
      assert forall a :: IsChild(grown, a, up, last) ==> IsChild(items, a, up, last);
    }
  }

  lemma {:induction false} ResolveGrown(items: Items, grown: Items, c: Id, at: seq<string>, name: string,
                                        q: seq<string>)
    requires Proper(items) && Proper(grown) && Resolve(items, at).Some?
    requires Grows(items, grown, c, Resolve(items, at).value, name)
    ensures Resolve(grown, q) == if q == at + [name] then Some(c) else Resolve(items, q)
    decreases |q|
  {
    if q != [] {
      var init, last := q[..|q| - 1], q[|q| - 1];
      ResolveGrown(items, grown, c, at, name, init);
      GrownStep(items, grown, c, at, name, init, last);
      assert q == init + [last];
      ResolveLast(grown, init, last);
      ResolveLast(items, init, last);
    }
  }

  lemma GrownStep(items: Items, grown: Items, c: Id, at: seq<string>, name: string, init: seq<string>, last: string)
    requires Proper(items) && Proper(grown) && Resolve(items, at).Some?
    requires Grows(items, grown, c, Resolve(items, at).value, name)
    requires Resolve(grown, init) == if init == at + [name] then Some(c) else Resolve(items, init)
    ensures (if Resolve(grown, init).None? then None else Child(grown, Resolve(grown, init).value, last)) ==
            if init + [last] == at + [name] then Some(c)
            else if Resolve(items, init).None? then None else Child(items, Resolve(items, init).value, last)
  {
    var parent := Resolve(items, at).value;
    assert init + [last] == at + [name] <==> init == at && last == name by {
      assert (init + [last])[..|init|] == init && (at + [name])[..|at|] == at;
      assert (init + [last])[|init|] == last && (at + [name])[|at|] == name;
    }
    if init == at + [name] {
      ResolveLast(items, at, name);
      assert parent == ROOT || parent in items;
      forall a ensures !IsChild(grown, a, c, last) {
        assert Hangs(items, a);
      }
    } else if Resolve(items, init).Some? {
      if Resolve(items, init).value == parent { ResolveInjective(items, init, at); }
      ChildGrown(items, grown, c, parent, name, Resolve(items, init).value, last);
    }
  }

  /** Adding an item with an unused ID under a folder that has no such child changes exactly one path. */
  lemma AddItem(items: Items, c: Id, at: seq<string>, item: Item)
    requires Proper(items) && c !in items && c != ROOT
    requires Resolve(items, at) == Some(item.parent) && (item.parent == ROOT || items[item.parent].folder)
    requires Child(items, item.parent, item.name).None?
    ensures Proper(items[c := item])
    ensures forall q :: Resolve(items[c := item], q) == if q == at + [item.name] then Some(c) else Resolve(items, q)
  {
    var grown := items[c := item];
    ProperGrown(items, grown, c, item.parent, item.name);
    forall q ensures Resolve(grown, q) == if q == at + [item.name] then Some(c) else Resolve(items, q) {
      ResolveGrown(items, grown, c, at, item.name, q);
    }
  }

  /** Some folder holds two items of one name, so that a walk through that name may go either way. */
  predicate Twinned(items: Items) {
    exists a, b :: a in items && b in items && a != b && Twins(items, a, b)
  }

  predicate Twins(items: Items, a: Id, b: Id) {
    a in items && b in items && items[a].parent == items[b].parent && items[a].name == items[b].name
  }

  lemma ProperHasNoTwins(items: Items)
    requires Proper(items)
    ensures !Twinned(items)
  {
    forall a, b | Twins(items, a, b) ensures a == b {
      assert IsChild(items, a, items[a].parent, items[a].name) && IsChild(items, b, items[a].parent, items[a].name);
    }
  }

  /** A folder made beside a file of its name, which a query for folders does not find, leaves the name to two
      items. */
  lemma TwinFolder(items: Items, f: Id, c: Id, parent: Id, name: string)
    requires IsChild(items, f, parent, name) && c !in items
    ensures Twinned(items[c := Item(name, parent, true, [], 0)])
  {
    assert Twins(items[c := Item(name, parent, true, [], 0)], f, c);
  }

  /** Same items in the same places. */
  ghost predicate SamePlaces(items: Items, after: Items) {
    && after.Keys == items.Keys
    && forall a {:trigger after[a]} :: a in items ==>
         after[a] == items[a].(bytes := after[a].bytes, modTime := after[a].modTime)
  }

  /** New content changes no path. */
  lemma ChangeContent(items: Items, after: Items)
    requires Proper(items) && SamePlaces(items, after)
    ensures Proper(after) && forall q :: Resolve(after, q) == Resolve(items, q)
  {
    forall a ensures Hangs(after, a) {
      assert Hangs(items, a);
    }
    assert forall a, parent, name :: IsChild(after, a, parent, name) <==> IsChild(items, a, parent, name);
    forall q ensures Resolve(after, q) == Resolve(items, q) {
      ResolveChanged(items, after, q);
    }
  }

  lemma {:induction false} ResolveChanged(items: Items, after: Items, q: seq<string>)
    requires Proper(items) && Proper(after)
    requires forall a, parent, name :: IsChild(after, a, parent, name) <==> IsChild(items, a, parent, name)
    ensures Resolve(after, q) == Resolve(items, q)
    decreases |q|
  {
    if q != [] {
      var init, last := q[..|q| - 1], q[|q| - 1];
      ResolveChanged(items, after, init);
      if Resolve(items, init).Some? {
        var up := Resolve(items, init).value;
        var c := Child(items, up, last);
        if c.Some? { ChildUnique(after, c.value, up, last); }
      }
    }
  }

  lemma ProperGrown(items: Items, grown: Items, c: Id, parent: Id, name: string)
    requires Proper(items) && Grows(items, grown, c, parent, name)
    requires parent == ROOT || (parent in items && items[parent].folder)
    ensures Proper(grown)
  {
    forall a ensures Hangs(grown, a) {
      assert Hangs(items, a);
    }
    forall a, b, up, last | IsChild(grown, a, up, last) && IsChild(grown, b, up, last) ensures a == b {
      assert a != c ==> IsChild(items, a, up, last);
      assert b != c ==> IsChild(items, b, up, last);
    }
  }

  /** `gone` is an item with everything below it. */
  ghost predicate Subtree(items: Items, gone: set<Id>, at: seq<string>) {
    && at != [] && Resolve(items, at).Some? && Resolve(items, at).value in gone
    && (forall x :: x in gone ==> BelowPath(items, x, at))
    && (forall x :: x in items && items[x].parent in gone ==> x in gone)
  }

  ghost predicate BelowPath(items: Items, x: Id, at: seq<string>) {
    exists r :: at <= r && Resolve(items, r) == Some(x)
  }

  lemma BelowPathChild(items: Items, x: Id, at: seq<string>)
    requires Proper(items) && x in items && BelowPath(items, items[x].parent, at)
    ensures BelowPath(items, x, at)
  {
    var r :| at <= r && Resolve(items, r) == Some(items[x].parent);
    ResolveLast(items, r, items[x].name);
    ChildUnique(items, x, items[x].parent, items[x].name);
    assert at <= r + [items[x].name];
  }

  lemma ChildCut(items: Items, gone: set<Id>, at: seq<string>, init: seq<string>, last: string)
    requires Proper(items) && Subtree(items, gone, at) && !(at <= init) && Resolve(items, init).Some?
    ensures var up := Resolve(items, init).value;
            Child(items - gone, up, last) == if at == init + [last] then None else Child(items, up, last)
  {
    var up, cut := Resolve(items, init).value, items - gone;
    ResolveLast(items, init, last);
    if Child(items, up, last).Some? {
      var a := Child(items, up, last).value;
      if at == init + [last] {
        forall b ensures !IsChild(cut, b, up, last) {
          assert IsChild(cut, b, up, last) ==> IsChild(items, b, up, last);
        }
      } else {
        assert |at| <= |init| && at <= init + [last] ==> at <= init;
        if a in gone {
          var r :| at <= r && Resolve(items, r) == Some(a);
          ResolveInjective(items, r, init + [last]);
        }
        ProperCut(items, gone);
        ChildUnique(cut, a, up, last);
      }
    } else {
      assert forall b :: IsChild(cut, b, up, last) ==> IsChild(items, b, up, last);
    }
  }

  /** Removing a subtree removes exactly the paths through it. */
  lemma {:induction false} ResolveCut(items: Items, gone: set<Id>, at: seq<string>, q: seq<string>)
    requires Proper(items) && Subtree(items, gone, at)
    ensures Resolve(items - gone, q) == if at <= q then None else Resolve(items, q)
    decreases |q|
  {
    if q != [] {
      var init, last := q[..|q| - 1], q[|q| - 1];
      ResolveCut(items, gone, at, init);
      assert q == init + [last];
      assert at <= q <==> at <= init || at == q;
      if !(at <= init) && Resolve(items, init).Some? {
        ChildCut(items, gone, at, init, last);
      }
    }
  }

  lemma ProperCut(items: Items, gone: set<Id>)
    requires Proper(items) && forall x :: x in items && items[x].parent in gone ==> x in gone
    ensures Proper(items - gone)
  {
    var cut := items - gone;
    forall a ensures Hangs(cut, a) {
      assert Hangs(items, a);
    }
    forall a, b, up, last | IsChild(cut, a, up, last) && IsChild(cut, b, up, last) ensures a == b {
      assert IsChild(items, a, up, last) && IsChild(items, b, up, last);
    }
  }

  /** `more` has every item of `items`, unchanged. */
  ghost predicate Extends(more: Items, items: Items) {
    forall a :: a in items ==> a in more && more[a] == items[a]
  }

  /** The paths that resolve after a deletion. */
  ghost predicate CutAt(after: Items, before: Items, at: seq<string>) {
    forall q :: Resolve(after, q) == if at <= q then None else Resolve(before, q)
  }

  /** The remote service: queries by parent and name, creation with a new ID, deletion of subtrees. */
  class DriveService {
    var items: Items
    var nextId: Id
    /** The checksum the service keeps with a file's content. */
    const md5: Bytes -> string

    /** IDs are given out once. */
    ghost predicate Numbered()
      reads this
    {
      nextId > ROOT && forall a :: a in items ==> a < nextId
    }

    ghost predicate Valid()
      reads this
    {
      Proper(items) && Numbered()
    }

    /** files.list with `name`, `parents` and optionally the folder type: some match, if there is one. */
    method Find(name: string, parent: Id, foldersOnly: bool) returns (id: Option<Id>)
      ensures id.Some? ==> IsChild(items, id.value, parent, name) && (foldersOnly ==> items[id.value].folder)
      ensures id.None? ==> forall a :: IsChild(items, a, parent, name) ==> foldersOnly && !items[a].folder
    {
      var matches := set a | && a in items && items[a].parent == parent && items[a].name == name
                             && (foldersOnly ==> items[a].folder);
      if matches == {} {
        assert forall a :: IsChild(items, a, parent, name) && (foldersOnly ==> items[a].folder) ==> a in matches;
        return None;
      }
      var a :| a in matches;
      return Some(a);
    }

    constructor (items: Items, nextId: Id, md5: Bytes -> string)
      requires Proper(items) && nextId > ROOT && forall a :: a in items ==> a < nextId
      ensures Valid() && this.items == items && this.md5 == md5
    {
      this.items, this.nextId, this.md5 := items, nextId, md5;
    }

    /** files.list of a parent's items, all pages, in whatever order. */
    method Children(parent: Id) returns (ids: seq<Id>)
      ensures forall a :: a in ids <==> a in items && items[a].parent == parent
      ensures forall i, j :: 0 <= i < j < |ids| ==> ids[i] != ids[j]
    {
      ids := [];
      var rest := set a | a in items && items[a].parent == parent;
      ghost var all := rest;
      while rest != {}
        invariant rest <= all
        invariant forall a :: a in ids <==> a in all - rest
        invariant forall i, j :: 0 <= i < j < |ids| ==> ids[i] != ids[j]
      {
        var a :| a in rest;
        assert forall b :: b in ids + [a] <==> b in ids || b == a;
        rest := rest - {a};
        ids := ids + [a];
      }
    }

    /** files.create; only a folder takes new items. */
    method CreateItem(item: Item) returns (id: Option<Id>)
      requires Numbered()
      modifies this
      ensures Numbered() && (id.None? <==> !IsFolder(old(items), item.parent))
      ensures id.None? ==> items == old(items)
      ensures id.Some? ==> id.value == old(nextId) && items == old(items)[id.value := item]
    {
      if item.parent != ROOT && (item.parent !in items || !items[item.parent].folder) { return None; }
      id := Some(nextId);
      items := items[nextId := item];
      nextId := nextId + 1;
    }

    /** files.update with new content; a folder takes none, nor does what is gone. */
    method UpdateContent(id: Id, bytes: Bytes, modTime: int) returns (ok: bool)
      requires Valid()
      modifies this
      ensures Valid() && (forall q :: Resolve(items, q) == Resolve(old(items), q))
      ensures ok <==> id in old(items) && !old(items)[id].folder
      ensures items == if ok then old(items)[id := old(items)[id].(bytes := bytes, modTime := modTime)] else old(items)
    {
      if id !in items || items[id].folder { return false; }
      ChangeContent(items, items[id := items[id].(bytes := bytes, modTime := modTime)]);
      items := items[id := items[id].(bytes := bytes, modTime := modTime)];
      return true;
    }

    /** files.get for the content; a folder has none, nor has what is gone. */
    method Download(id: Id) returns (bytes: Option<Bytes>)
      ensures bytes == if id !in items || items[id].folder then None else Some(items[id].bytes)
    {
      if id !in items || items[id].folder { return None; }
      return Some(items[id].bytes);
    }

    /** files.delete: the item and, for a folder, everything below it; an error for what is gone. */
    method DeleteItem(id: Id, ghost at: seq<string>) returns (ok: bool)
      requires Valid() && at != [] && id != ROOT && (id in items ==> Resolve(items, at) == Some(id))
      modifies this
      ensures Valid() && (ok <==> id in old(items))
      ensures !ok ==> items == old(items)
      ensures ok ==> Extends(old(items), items) && CutAt(items, old(items), at)
    {
      if id !in items { return false; }
      var gone := {id};
      while exists x :: x in items && x !in gone && items[x].parent in gone
        invariant items == old(items) && nextId == old(nextId) && id in gone && gone <= items.Keys
        invariant forall x :: x in gone ==> BelowPath(items, x, at)
        decreases items.Keys - gone
      {
        var x :| x in items && x !in gone && items[x].parent in gone;
        BelowPathChild(items, x, at);
        gone := gone + {x};
      }
      CutAll(items, gone, at);
      items := items - gone;
      return true;
    }
  }

  lemma CutAll(items: Items, gone: set<Id>, at: seq<string>)
    requires Proper(items) && Subtree(items, gone, at)
    ensures Proper(items - gone) && CutAt(items - gone, items, at)
  {
    ProperCut(items, gone);
    forall q ensures Resolve(items - gone, q) == if at <= q then None else Resolve(items, q) {
      ResolveCut(items, gone, at, q);
    }
  }

  /** What the deleted paths led to is gone from the drive. */
  lemma {:induction false} GoneWithCut(before: Items, after: Items, at: seq<string>, q: seq<string>)
    requires Proper(before) && Proper(after) && Extends(before, after) && CutAt(after, before, at)
    requires at != [] && at <= q && Resolve(before, q).Some?
    ensures Resolve(before, q).value !in after
  {
    var init, last, a := q[..|q| - 1], q[|q| - 1], Resolve(before, q).value;
    assert q == init + [last];
    if a in after {
      var up := Resolve(before, init).value;
      assert IsChild(after, a, up, last) && Hangs(after, a);
      if q == at {
        ResolveLast(after, init, last);
        ChildUnique(after, a, up, last);
      } else {
        assert at == q[..|at|] == init[..|at|];
        GoneWithCut(before, after, at, init);
        RootOnlyAtTop(before, init);
      }
    }
  }

  /** Only the empty path leads to the root. */
  lemma RootOnlyAtTop(items: Items, q: seq<string>)
    requires Proper(items) && q != [] && Resolve(items, q).Some?
    ensures Resolve(items, q).value != ROOT
  {
  }

  /** The path leads to a file. */
  ghost predicate FileAt(items: Items, parts: seq<string>) {
    Resolve(items, parts).Some? && !IsFolder(items, Resolve(items, parts).value)
  }

  /** A file stands above the path. */
  ghost predicate BlockedLevel(items: Items, parts: seq<string>) {
    exists n :: 0 <= n < |parts| && FileAt(items, parts[..n])
  }

  /** Whatever something hangs below is a folder. */
  lemma PrefixIsFolder(items: Items, parts: seq<string>, n: nat)
    requires Proper(items) && n < |parts| && Resolve(items, parts).Some?
    ensures var id := Resolve(items, parts[..n]); id.Some? && IsFolder(items, id.value)
  {
    ResolvePrefix(items, parts, n + 1);
    assert parts[..n + 1] == parts[..n] + [parts[n]];
    ResolveLast(items, parts[..n], parts[n]);
    var a := Resolve(items, parts[..n + 1]).value;
    assert Hangs(items, a);
  }

  /** So at most one level of a path is a file, and nothing is found beyond it. */
  lemma NothingBeyondFile(items: Items, parts: seq<string>, n: nat, m: nat)
    requires Proper(items) && n < m <= |parts| && FileAt(items, parts[..n])
    ensures Resolve(items, parts[..m]).None?
  {
    assert parts[..m][..n] == parts[..n];
    if Resolve(items, parts[..m]).Some? { PrefixIsFolder(items, parts[..m], n); }
  }

  /** Only missing levels of one path have appeared; every other path leads where it led. */
  ghost predicate Fills(items: Items, was: Items, parts: seq<string>) {
    forall q :: !(q <= parts) || Resolve(was, q).Some? ==> Resolve(items, q) == Resolve(was, q)
  }
}
