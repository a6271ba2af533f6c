/** The local file system adapter (package `local`), over an abstract tree in place of the disk. */
module Adapter {
  import opened Domain
  import opened Paths
  import opened Trees
  import opened Progress

  /** `p` is an entry of directory `d`; the root directory is "". */
  predicate ChildOf(p: string, d: string) {
    if d == "" then p != "" && '/' !in p
    else Below(p, d) && '/' !in p[|d| + 1..]
  }

  /** filepath.Dir, with "" for the root. */
  function Parent(p: string): string {
    if p == "" then ""
    else if p[|p| - 1] == '/' then p[..|p| - 1]
    else Parent(p[..|p| - 1])
  }

  lemma {:induction false} ParentIsAbove(p: string)
    ensures '/' !in p ==> Parent(p) == ""
    ensures '/' in p ==> Below(p, Parent(p)) && '/' !in p[|Parent(p)| + 1..]
  {
    if p != "" && p[|p| - 1] != '/' {
      var init := p[..|p| - 1];
      ParentIsAbove(init);
      assert p == init + [p[|p| - 1]];
      if '/' in p {
        assert '/' in init;
        assert p[..|Parent(p)|] == init[..|Parent(p)|];
      }
    }
  }

  /** The directories above an entry are its parent and those above the parent. */
  lemma AncestorsByParent(p: string)
    requires Parent(p) != ""
    ensures Below(p, Parent(p)) && Ancestors(p) == Ancestors(Parent(p)) + {Parent(p)}
  {
  }

  lemma NothingAbove(p: string)
    requires '/' !in p
    ensures Ancestors(p) == {} && forall t: Tree :: !FileAbove(t, p)
  {
  }

  lemma FileAboveByParent(t: Tree, p: string)
    requires Parent(p) != ""
    ensures FileAbove(t, p) <==> FileAbove(t, Parent(p)) || (Parent(p) in t && t[Parent(p)].File?)
    ensures !Refused(p) ==> !Refused(Parent(p))
  {
  }

  predicate IsDirectory(t: Tree, d: string) {
    d == "" || (d in t && t[d].Dir?)
  }

  /** Exactly the entries of a directory, each once, with metadata and checksum. */
  ghost predicate ListsEntries(items: seq<FileInfo>, t: Tree, d: string, sum: Digest) {
    && (forall i :: 0 <= i < |items| ==>
          var p := items[i].path; p in t && ChildOf(p, d) && items[i] == Info(p, t[p], sum))
    && (forall p :: p in t && ChildOf(p, d) ==> Shows(items, p))
    && (forall i, j :: 0 <= i < j < |items| ==> items[i].path != items[j].path)
  }

  predicate Shows(items: seq<FileInfo>, p: string) {
    exists i :: 0 <= i < |items| && items[i].path == p
  }

  class LocalAdapter {
    var tree: Tree
    const hash: Bytes -> string
    const sum: Digest := LocalSum(hash)

    constructor (tree: Tree, hash: Bytes -> string)
      ensures this.tree == tree && this.hash == hash
    {
      this.tree := tree;
      this.hash := hash;
    }

    /** The entries of one directory, each once, in whatever order the system gives them; nothing for a path that is
        absolute, starts with two dots or is not a directory. A file of at most 100 MB has its checksum. */
    method List(dir: string) returns (listed: Option<seq<FileInfo>>)
      ensures listed.None? <==>
                || (dir != "" && dir[0] == '/') || (|dir| > 1 && dir[0] == '.' && dir[1] == '.')
                || (dir != "" && (dir in tree ==> tree[dir].File?))
      ensures listed.Some? ==> ListsEntries(listed.value, tree, dir, sum)
      ensures listed.Some? ==> forall i :: 0 <= i < |listed.value| && listed.value[i].kind == Regular ==>
                var p := listed.value[i].path;
                && p in tree && tree[p].File? && listed.value[i].size == |tree[p].bytes|
                && (listed.value[i].size > 104857600 ==> listed.value[i].checksum == "")
                && (listed.value[i].size <= 104857600 ==>
                      listed.value[i].checksum ==
                      if p != "" && (p[0] == '/' || (|p| > 1 && p[0] == '.' && p[1] == '.')) then ""
                      else hash(tree[p].bytes))
    {
      if Refused(dir) || (dir != "" && (dir !in tree || tree[dir].File?)) { return None; }
      var items := ReadDir(dir);
      return Some(items);
    }

    method ReadDir(dir: string) returns (items: seq<FileInfo>)
      ensures ListsEntries(items, tree, dir, sum)
    {
      items := [];
      var rest := set p | p in tree && ChildOf(p, dir);
      ghost var all := rest;
      while rest != {}
        invariant rest <= all
        invariant forall i :: 0 <= i < |items| ==>
                    var p := items[i].path; p in all - rest && items[i] == Info(p, tree[p], sum)
        invariant forall p :: p in all - rest ==> Shows(items, p)
        invariant forall i, j :: 0 <= i < j < |items| ==> items[i].path != items[j].path
      {
        var p :| p in rest;
        rest := rest - {p};
        ghost var before := items;
        items := items + [Info(p, tree[p], sum)];
        assert items[|before|].path == p;
        assert forall i :: 0 <= i < |before| ==> items[i] == before[i];
        forall q | Shows(before, q) ensures Shows(items, q) {
          var i :| 0 <= i < |before| && before[i].path == q;
          assert items[i].path == q;
        }
      }
    }

    method Mkdir(path: string) returns (ok: bool)
      modifies `tree
      ensures tree == MkdirAll(old(tree), path).tree && ok == MkdirAll(old(tree), path).ok
    {
      var made := MkdirAll(tree, path);
      tree := made.tree;
      return made.ok;
    }

    /** The bytes of a regular file; nothing for a refused or missing path or a directory. */
    method Read(path: string) returns (bytes: Option<Bytes>)
      ensures bytes == Trees.Read(tree, path)
    {
      if Refused(path) || path !in tree || tree[path].Dir? { return None; }
      return Some(tree[path].bytes);
    }

    /** The directories above a relative path, unless a file is in the way. */
    method MakeParents(path: string) returns (ok: bool)
      requires path != "" && !Refused(path)
      modifies `tree
      ensures ok <==> !FileAbove(old(tree), path)
      ensures tree == if ok then WithDirs(old(tree), Ancestors(path)) else old(tree)
    {
      var dir := Parent(path);
      ParentIsAbove(path);
      if dir == "" {
        NothingAbove(path);
        assert WithDirs(tree, {}) == tree;
        return true;
      }
      AncestorsByParent(path);
      FileAboveByParent(tree, path);
      var made := MkdirAll(tree, dir);
      tree := made.tree;
      return made.ok;
    }

    /** Parents, then a temporary file that takes all of the input, then a rename over the destination. `now` is the
        time the file system stamps on the new file. Nothing is read when the temporary file cannot be made. */
    method Write(path: string, reader: ProgressReader, now: int) returns (ok: bool)
      modifies `tree, reader, reader.reporter`currentBytes, reader.reporter`updates
      ensures tree == Trees.Write(old(tree), path, old(reader.rest), now).tree
      ensures ok == Trees.Write(old(tree), path, old(reader.rest), now).ok
      ensures reader.transferred == old(reader.transferred) + if Opens(old(tree), path) then |old(reader.rest)| else 0
      ensures old(reader.reporter.updates) <= reader.reporter.updates
      ensures OnlyProgress(reader.reporter.updates, |old(reader.reporter.updates)|, reader.reporter.currentFile,
                           reader.reporter.currentTotal)
      ensures old(reader.Told()) ==> reader.Told()
    {
      if path == "" || Refused(path) { return false; }
      ok := MakeParents(path);
      if !ok { return false; }
      var temp := path + TEMP_SUFFIX;
      if temp in tree && tree[temp].Dir? { return false; }
      var content := reader.ReadAll(32 * 1024);
      tree := tree[temp := File(content, now)];
      if path in tree && tree[path].Dir? {
        tree := tree - {temp};
        return false;
      }
      var moved := tree[temp];
      tree := (tree - {temp})[path := moved];
      return true;
    }

    /** A file, or a directory nothing lies below. */
    method Delete(path: string) returns (ok: bool)
      modifies `tree
      ensures tree == Remove(old(tree), path).tree && ok == Remove(old(tree), path).ok
    {
      if Refused(path) || path !in tree || (tree[path].Dir? && Occupied(tree, path)) { return false; }
      tree := tree - {path};
      return true;
    }
  }
}
