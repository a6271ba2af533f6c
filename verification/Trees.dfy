/** Directory trees and the effect of the local adapter's operations on them. */
module Trees {
  import opened Domain
  import opened Paths

  newtype Byte = x: int | 0 <= x < 256
  type Bytes = seq<Byte>

  datatype Node = File(bytes: Bytes, modTime: int) | Dir

  /** The entries below an endpoint's root, keyed by relative path; the root itself is not a key. */
  type Tree = map<string, Node>

  /** Everything above an entry is a directory. */
  ghost predicate WellFormed(t: Tree) {
    && "" !in t
    && forall p, q :: p in t && Below(p, q) ==> q in t && t[q].Dir?
  }

  const TEMP_SUFFIX := ".syncrules.tmp"

  /** No entry is the temporary file of a write. */
  ghost predicate NoTemp(t: Tree) {
    forall p :: p + TEMP_SUFFIX !in t
  }

  predicate FileAbove(t: Tree, p: string) {
    exists q :: q in t && t[q].File? && Below(p, q)
  }

  /** A tree after an operation, and whether the operation reported success. */
  datatype Outcome = Outcome(tree: Tree, ok: bool)

  /** `t` with directories added at `qs` where it has nothing. */
  function WithDirs(t: Tree, qs: set<string>): Tree {
    map q | q in t.Keys + qs :: if q in t then t[q] else Dir
  }

  /** "" is the endpoint's root directory. */
  predicate Absolute(p: string) {
    p != "" && p[0] == '/'
  }

  /** What `resolvePath` turns down: absolute paths, and every path whose text starts with "..", even where that is
      only the beginning of a name such as "..data". */
  predicate Refused(p: string) {
    Absolute(p) || (|p| >= 2 && p[0] == '.' && p[1] == '.')
  }

  /** os.MkdirAll: all or nothing, because the first file met blocks before anything is made. */
  function MkdirAll(t: Tree, p: string): Outcome {
    if p == "" then Outcome(t, true)
    else if Refused(p) || FileAbove(t, p) || (p in t && t[p].File?) then Outcome(t, false)
    else Outcome(WithDirs(t, Ancestors(p) + {p}), true)
  }

  /** The parents are made, the bytes go to a temporary name, and a rename replaces `p`, which fails
      on a directory. */
  function Write(t: Tree, p: string, bytes: Bytes, modTime: int): Outcome {
    if p == "" || Refused(p) || FileAbove(t, p) then Outcome(t, false)
    else
      var made, tmp := WithDirs(t, Ancestors(p)), p + TEMP_SUFFIX;
      if tmp in made && made[tmp].Dir? then Outcome(made, false)
      else if p in made && made[p].Dir? then Outcome(made - {tmp}, false)
      else Outcome((made - {tmp})[p := File(bytes, modTime)], true)
  }

  /** A write gets as far as its temporary file and pulls its input. */
  predicate Opens(t: Tree, p: string) {
    p != "" && !Refused(p) && !FileAbove(t, p) && (p + TEMP_SUFFIX in t ==> t[p + TEMP_SUFFIX].File?)
  }

  predicate Occupied(t: Tree, p: string) {
    exists r :: r in t && Below(r, p)
  }

  /** os.Remove: a file, or a directory with nothing below it. */
  function Remove(t: Tree, p: string): Outcome {
    if Refused(p) || p !in t || (t[p].Dir? && Occupied(t, p)) then Outcome(t, false)
    else Outcome(t - {p}, true)
  }

  function Read(t: Tree, p: string): Option<Bytes> {
    if !Refused(p) && p in t && t[p].File? then Some(t[p].bytes) else None
  }

  /** A well-formed tree has neither the root nor an absolute path among its entries. */
  lemma EntriesAreRelative(t: Tree, p: string)
    requires WellFormed(t) && p in t
    ensures p != "" && !Absolute(p)
  {
  }

  function NodeAt(t: Tree, p: string): Option<Node> {
    if p in t then Some(t[p]) else None
  }

  lemma SameNodes(t: Tree, u: Tree)
    requires forall p :: NodeAt(t, p) == NodeAt(u, p)
    ensures t == u
  {
    assert forall p :: (p in t <==> NodeAt(t, p).Some?) && (p in u <==> NodeAt(u, p).Some?);
    assert forall p :: p in t ==> t[p] == NodeAt(t, p).value == u[p];
  }

  // ----- what the operations promise

  /** Making a directory succeeds exactly when the path is not refused and no file is at it or above it. Then there is
      a directory at every level down to it and nothing else has changed; otherwise nothing has changed. */
  lemma MkdirAllMakes(t: Tree, p: string)
    requires WellFormed(t) && p != ""
    ensures var o := MkdirAll(t, p);
            && WellFormed(o.tree)
            && (o.ok <==> !Refused(p) && forall q :: (q == p || Below(p, q)) && q in t ==> t[q].Dir?)
            && (o.ok ==> forall q :: NodeAt(o.tree, q) == if q == p || Below(p, q) then Some(Dir) else NodeAt(t, q))
            && (!o.ok ==> o.tree == t)
  {
  }

  function Written(t: Tree, p: string, bytes: Bytes, modTime: int, q: string): Option<Node> {
    if q == p then Some(File(bytes, modTime)) else if Below(p, q) then Some(Dir) else NodeAt(t, q)
  }

  /** Writing where the temporary name is free succeeds exactly when the path is not refused, no file is above it and
      no directory at it. Then it has the new content, directories are above it and nothing else has changed;
      otherwise nothing has changed. */
  lemma WriteWrites(t: Tree, p: string, bytes: Bytes, modTime: int)
    requires WellFormed(t) && p != "" && p + TEMP_SUFFIX !in t
    ensures var o := Write(t, p, bytes, modTime);
            && WellFormed(o.tree)
            && (o.ok <==> !Refused(p) && !FileAbove(t, p) && NodeAt(t, p) != Some(Dir))
            && (o.ok ==> forall q :: NodeAt(o.tree, q) == Written(t, p, bytes, modTime, q))
            && (!o.ok ==> o.tree == t)
  {
  }

  /** Deleting succeeds exactly for an entry that is not refused and has nothing below it. Then it is gone and nothing
      else has changed; otherwise nothing has changed. */
  lemma RemoveRemoves(t: Tree, p: string)
    requires WellFormed(t)
    ensures var o := Remove(t, p);
            && WellFormed(o.tree)
            && (o.ok <==> !Refused(p) && p in t && !Occupied(t, p))
            && (o.ok ==> forall q :: NodeAt(o.tree, q) == if q == p then None else NodeAt(t, q))
            && (!o.ok ==> o.tree == t)
  {
  }

  /** What is read back: a successful write gives its own bytes, a successful deletion nothing, and no operation
      changes what is read anywhere else. */
  lemma ReadsBack(t: Tree, p: string, bytes: Bytes, modTime: int, q: string)
    requires WellFormed(t) && p != "" && p + TEMP_SUFFIX !in t
    ensures var o := Write(t, p, bytes, modTime);
            Read(o.tree, q) == if o.ok && q == p then Some(bytes) else Read(t, q)
    ensures var o := Remove(t, p);
            Read(o.tree, q) == if o.ok && q == p then None else Read(t, q)
    ensures Read(MkdirAll(t, p).tree, q) == Read(t, q)
  {
  }

  /** Which paths the operations refuse, by their characters: the absolute ones and those that start with two dots.
      Nothing else is refused, whatever it is called; then only the tree decides. */
  lemma RefusedByName(t: Tree, p: string, bytes: Bytes, modTime: int)
    requires WellFormed(t) && p != "" && p + ".syncrules.tmp" !in t
    ensures var refused := p[0] == '/' || (|p| > 1 && p[0] == '.' && p[1] == '.');
            var clear := forall q :: q in t && |q| < |p| && p[..|q|] == q && p[|q|] == '/' ==> t[q].Dir?;
            && (Write(t, p, bytes, modTime).ok <==> !refused && clear && (p in t ==> t[p].File?))
            && (MkdirAll(t, p).ok <==> !refused && clear && (p in t ==> t[p].Dir?))
            && (Remove(t, p).ok <==>
                  !refused && p in t && forall r :: r in t && |p| < |r| && r[..|p|] == p ==> r[|p|] != '/')
            && (Read(t, p).Some? <==> !refused && p in t && t[p].File?)
  {
    ClearMeans(t, p);
    WriteWrites(t, p, bytes, modTime);
    RemoveRemoves(t, p);
  }

  /** What stands in the way of a path, and below it, by the characters. */
  lemma ClearMeans(t: Tree, p: string)
    ensures FileAbove(t, p) <==> exists q :: q in t && t[q].File? && |q| < |p| && p[..|q|] == q && p[|q|] == '/'
    ensures Occupied(t, p) <==> exists r :: r in t && |p| < |r| && r[..|p|] == p && r[|p|] == '/'
  {
  }

  /** The endpoint's root can be made, since it is there, but not read. */
  lemma RootIsThere(t: Tree)
    ensures MkdirAll(t, "") == Outcome(t, true)
    ensures WellFormed(t) ==> Read(t, "").None?
  {
  }

  /** A write goes through a temporary name beside the path and takes what a crashed one has left there with it. */
  lemma TempNameIsTaken(t: Tree, p: string, bytes: Bytes, modTime: int)
    requires WellFormed(t) && p + ".syncrules.tmp" in t && Opens(t, p)
    ensures t[p + ".syncrules.tmp"].File? && p + ".syncrules.tmp" !in Write(t, p, bytes, modTime).tree
  {
  }

  /** The checksum an endpoint reports for a path with a content; "" for none. */
  type Digest = (string, Bytes) -> string

  /** What a listing shows of an entry. */
  function Info(p: string, n: Node, sum: Digest): FileInfo {
    match n
    case Dir => FileInfo(p, Directory, 0, 0, "")
    case File(bytes, modTime) => FileInfo(p, Regular, |bytes|, modTime, sum(p, bytes))
  }

  /** A file is shown with its own size and time, a directory with nothing to compare. */
  lemma InfoShows(p: string, b: Bytes, t: int, sum: Digest)
    ensures Info(p, File(b, t), sum) == FileInfo(p, Regular, |b|, t, sum(p, b))
    ensures Info(p, Dir, sum) == FileInfo(p, Directory, 0, 0, "")
  {
  }

  /** The local adapter hashes files of at most 100 MB that it can read back by their paths and leaves the others
      without a checksum. */
  function LocalSum(hash: Bytes -> string): Digest {
    (p, b) => if !Refused(p) && |b| <= 100 * 1024 * 1024 then hash(b) else ""
  }

  /** From the first byte beyond 100 MB on a file is listed without a checksum, and so is one with a refused name. */
  lemma HashedUpTo(hash: Bytes -> string, p: string, b: Bytes)
    requires p != ""
    ensures var refused := p[0] == '/' || (|p| > 1 && p[0] == '.' && p[1] == '.');
            LocalSum(hash)(p, b) == if refused || |b| > 104857600 then "" else hash(b)
  {
    var refused := p[0] == '/' || (|p| > 1 && p[0] == '.' && p[1] == '.');
    assert Refused(p) <==> refused;
    assert LocalSum(hash)(p, b) == if !Refused(p) && |b| <= 100 * 1024 * 1024 then hash(b) else "";
  }
}
