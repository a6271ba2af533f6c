/** The Google Drive adapter's path-to-ID cache against the remote folder tree (package `gdrive`). */
module Drive {
  import opened Domain
  import opened Paths
  import opened Trees
  import opened Adapter
  import opened DriveItems
  import opened DriveTree

  // ----- the cache

  /** Every key is a full path. */
  ghost predicate Keyed(cache: map<string, Id>) {
    forall key :: key in cache ==> Canonical(key)
  }

  /** The key holds what an uncached walk would return. */
  ghost predicate Right(cache: map<string, Id>, items: Items, key: string)
    requires key in cache && key != ""
  {
    Resolve(items, Parts(key)) == Some(cache[key])
  }

  /** Every cached entry is what an uncached walk would return. */
  ghost predicate Coherent(cache: map<string, Id>, items: Items) {
    forall key :: key in cache ==> Canonical(key) && Right(cache, items, key)
  }

  /** The entries of a path and of its levels are right. */
  ghost predicate RightAlong(cache: map<string, Id>, items: Items, parts: seq<string>) {
    Keyed(cache) && forall key :: key in cache && Parts(key) <= parts ==> Right(cache, items, key)
  }

  /** Only entries of a path and of its levels have been added or set anew. */
  ghost predicate GrewAlong(cache: map<string, Id>, was: map<string, Id>, parts: seq<string>) {
    forall key {:trigger key in cache} {:trigger key in was} ::
      && (key in was ==> key in cache)
      && (key in cache && (key in was ==> cache[key] != was[key]) ==> key != "" && Parts(key) <= parts)
  }

  /** Storing what level `n` of a path leads to keeps the cache right along it. */
  lemma Remember(cache: map<string, Id>, was: map<string, Id>, items: Items, path: string, n: nat, id: Id)
    requires Canonical(path) && RightAlong(cache, items, Parts(path)) && GrewAlong(cache, was, Parts(path))
    requires 1 <= n <= |Parts(path)| && Resolve(items, Parts(path)[..n]) == Some(id)
    ensures var key := KeyOf(Parts(path), n);
            RightAlong(cache[key := id], items, Parts(path)) && GrewAlong(cache[key := id], was, Parts(path))
  {
    KeyParts(path, n);
  }

  /** What is right along a path stays right everywhere while nothing that resolved has moved. */
  lemma StaysCoherent(cache: map<string, Id>, was: map<string, Id>, items: Items, after: Items, parts: seq<string>)
    requires Coherent(was, items) && RightAlong(cache, after, parts) && GrewAlong(cache, was, parts)
    requires forall q :: Resolve(items, q).Some? ==> Resolve(after, q) == Resolve(items, q)
    ensures Coherent(cache, after)
  {
    forall key | key in cache ensures Canonical(key) && Right(cache, after, key) {
      assert Canonical(key);
      if !(Parts(key) <= parts) { assert Right(was, items, key); }
    }
  }

  /** Looking something up keeps a right cache right. */
  lemma LookedUp(cache: map<string, Id>, was: map<string, Id>, items: Items, parts: seq<string>)
    requires RightAlong(cache, items, parts) && GrewAlong(cache, was, parts)
    ensures Coherent(was, items) ==> Coherent(cache, items)
  {
    if Coherent(was, items) { StaysCoherent(cache, was, items, items, parts); }
  }

  /** So does what is right along it. */
  lemma StaysRight(cache: map<string, Id>, items: Items, after: Items, parts: seq<string>)
    requires RightAlong(cache, items, parts)
    requires forall q :: Resolve(items, q).Some? ==> Resolve(after, q) == Resolve(items, q)
    ensures RightAlong(cache, after, parts)
  {
    forall key | key in cache && Parts(key) <= parts ensures Right(cache, after, key) {
      assert Right(cache, items, key);
    }
  }

  /** Every level of the path that is there has its key. */
  ghost predicate LevelsCached(cache: map<string, Id>, items: Items, parts: seq<string>) {
    forall n :: 1 <= n <= |parts| && Resolve(items, parts[..n]).Some? ==> KeyOf(parts, n) in cache
  }

  /** At some level of the path stands a file that the cache does not know. */
  ghost predicate Clash(cache: map<string, Id>, items: Items, parts: seq<string>) {
    exists n :: 1 <= n <= |parts| && FileAt(items, parts[..n]) && KeyOf(parts, n) !in cache
  }

  /** One query of the walk: what it finds is the next level, and finding nothing ends the walk. */
  lemma WalkStep(items: Items, parts: seq<string>, i: nat, found: Option<Id>)
    requires Proper(items) && i < |parts| && Resolve(items, parts[..i]).Some?
    requires var up := Resolve(items, parts[..i]).value;
             if found.Some? then IsChild(items, found.value, up, parts[i])
             else forall a :: !IsChild(items, a, up, parts[i])
    ensures Resolve(items, parts[..i + 1]) == found
    ensures found.None? ==> forall n :: i < n <= |parts| ==> Resolve(items, parts[..n]).None?
  {
    assert parts[..i + 1] == parts[..i] + [parts[i]];
    ResolveLast(items, parts[..i], parts[i]);
    if found.Some? {
      ChildUnique(items, found.value, Resolve(items, parts[..i]).value, parts[i]);
    } else {
      forall n | i < n <= |parts| ensures Resolve(items, parts[..n]).None? {
        assert parts[..n][..i + 1] == parts[..i + 1];
        if Resolve(items, parts[..n]).Some? { ResolvePrefix(items, parts[..n], i + 1); }
      }
    }
  }

  /** The walk after `i` levels: all of them are cached. */
  ghost predicate LevelsPassed(cache: map<string, Id>, had: map<string, Id>, items: Items, path: string, i: nat, id: Id)
    requires Canonical(path) && i <= |Parts(path)|
  {
    var parts := Parts(path);
    && RightAlong(cache, items, parts) && GrewAlong(cache, had, parts)
    && Resolve(items, parts[..i]) == Some(id)
    && forall n :: 1 <= n <= i ==> KeyOf(parts, n) in cache
  }

  lemma WalkOn(cache: map<string, Id>, had: map<string, Id>, items: Items, path: string, i: nat, up: Id, id: Id)
    requires Canonical(path) && i < |Parts(path)| && LevelsPassed(cache, had, items, path, i, up)
    requires Resolve(items, Parts(path)[..i + 1]) == Some(id)
    ensures LevelsPassed(cache[KeyOf(Parts(path), i + 1) := id], had, items, path, i + 1, id)
  {
    Remember(cache, had, items, path, i + 1, id);
  }

  lemma WalkEnds(cache: map<string, Id>, had: map<string, Id>, items: Items, path: string, i: nat, up: Id)
    requires Canonical(path) && i < |Parts(path)| && LevelsPassed(cache, had, items, path, i, up)
    requires forall n :: i < n <= |Parts(path)| ==> Resolve(items, Parts(path)[..n]).None?
    ensures LevelsCached(cache, items, Parts(path)) && Resolve(items, Parts(path)).None?
    ensures Coherent(had, items) ==> Coherent(cache, items)
  {
    var parts := Parts(path);
    assert parts[..|parts|] == parts;
    LookedUp(cache, had, items, parts);
  }

  // ----- making the levels of a path

  /** After `i` levels: `id` is what they lead to, only missing levels were made, and what lies beyond is as it was. */
  ghost predicate LevelsFilled(items: Items, was: Items, parts: seq<string>, i: nat, id: Id)
    requires i <= |parts|
  {
    && Proper(items) && Resolve(items, parts[..i]) == Some(id)
    && Extends(items, was) && Fills(items, was, parts)
    && (if Resolve(was, parts[..i]).Some? then items == was else IsFolder(items, id))
    && (forall n :: i < n <= |parts| ==> Resolve(items, parts[..n]) == Resolve(was, parts[..n]))
  }

  /** No key beyond level `i` has come or gone, and no file was passed that the cache did not know. */
  ghost predicate KeysFilled(cache: map<string, Id>, had: map<string, Id>, was: Items, parts: seq<string>, i: nat)
    requires i <= |parts|
  {
    && (forall n :: i < n <= |parts| ==> (KeyOf(parts, n) in cache <==> KeyOf(parts, n) in had))
    && (forall n :: 1 <= n <= i && FileAt(was, parts[..n]) ==> KeyOf(parts, n) in had)
  }

  ghost predicate Filling(items: Items, was: Items, cache: map<string, Id>, had: map<string, Id>, path: string, i: nat,
                          id: Id)
    requires Canonical(path) && i <= |Parts(path)|
  {
    var parts := Parts(path);
    && LevelsFilled(items, was, parts, i, id) && KeysFilled(cache, had, was, parts, i)
    && RightAlong(cache, items, parts) && GrewAlong(cache, had, parts)
  }

  /** Different levels have different keys. */
  lemma OtherKeys(path: string, n: nat)
    requires Canonical(path) && 1 <= n <= |Parts(path)|
    ensures forall m :: 1 <= m <= |Parts(path)| && m != n ==> KeyOf(Parts(path), m) != KeyOf(Parts(path), n)
  {
    KeyParts(path, n);
    forall m | 1 <= m <= |Parts(path)| && m != n ensures KeyOf(Parts(path), m) != KeyOf(Parts(path), n) {
      KeyParts(path, m);
      assert |Parts(path)[..m]| != |Parts(path)[..n]|;
    }
  }

  lemma KeysFilledNext(cache: map<string, Id>, had: map<string, Id>, was: Items, path: string, i: nat, id: Id)
    requires Canonical(path) && i < |Parts(path)| && KeysFilled(cache, had, was, Parts(path), i)
    requires FileAt(was, Parts(path)[..i + 1]) ==> KeyOf(Parts(path), i + 1) in had
    ensures KeysFilled(cache[KeyOf(Parts(path), i + 1) := id], had, was, Parts(path), i + 1)
  {
    OtherKeys(path, i + 1);
  }

  /** The next level was there: known to the cache or found as a folder. */
  lemma FillKnown(items: Items, was: Items, cache: map<string, Id>, had: map<string, Id>, path: string, i: nat, up: Id,
                  id: Id)
    requires Canonical(path) && i < |Parts(path)| && Filling(items, was, cache, had, path, i, up)
    requires Resolve(items, Parts(path)[..i + 1]) == Some(id)
    requires IsFolder(items, id) || KeyOf(Parts(path), i + 1) in cache
    ensures var key := KeyOf(Parts(path), i + 1);
            Filling(items, was, cache[key := id], had, path, i + 1, id)
  {
    var parts := Parts(path);
    assert Resolve(was, parts[..i + 1]) == Some(id);
    assert parts[..i + 1][..i] == parts[..i];
    ResolvePrefix(was, parts[..i + 1], i);
    Remember(cache, had, items, path, i + 1, id);
    KeysFilledNext(cache, had, was, path, i, id);
  }

  /** The next level was missing and has been made: what becomes of the items. */
  lemma LevelGrows(items: Items, grown: Items, was: Items, parts: seq<string>, i: nat, up: Id, c: Id)
    requires i < |parts| && LevelsFilled(items, was, parts, i, up)
    requires c !in items && c != ROOT && IsFolder(items, up) && Child(items, up, parts[i]).None?
    requires grown == items[c := Item(parts[i], up, true, [], 0)]
    ensures Proper(grown) && Extends(grown, was) && Resolve(was, parts[..i + 1]).None?
    ensures forall q :: Resolve(grown, q) == if q == parts[..i + 1] then Some(c) else Resolve(items, q)
  {
    assert parts[..i + 1] == parts[..i] + [parts[i]];
    ResolveLast(items, parts[..i], parts[i]);
    AddItem(items, c, parts[..i], grown[c]);
    assert Resolve(items, parts[..i + 1]) == Resolve(was, parts[..i + 1]);
  }

  lemma LevelMade(items: Items, grown: Items, was: Items, parts: seq<string>, i: nat, up: Id, c: Id)
    requires i < |parts| && LevelsFilled(items, was, parts, i, up)
    requires c !in items && c != ROOT && IsFolder(items, up) && Child(items, up, parts[i]).None?
    requires grown == items[c := Item(parts[i], up, true, [], 0)]
    ensures LevelsFilled(grown, was, parts, i + 1, c) && Resolve(was, parts[..i + 1]).None?
    ensures forall q :: Resolve(items, q).Some? ==> Resolve(grown, q) == Resolve(items, q)
  {
    LevelGrows(items, grown, was, parts, i, up, c);
    assert Resolve(items, parts[..i + 1]) == Resolve(was, parts[..i + 1]);
    assert parts[..i + 1] <= parts;
    forall n | i + 1 < n <= |parts| ensures Resolve(grown, parts[..n]) == Resolve(was, parts[..n]) {
      assert |parts[..n]| != |parts[..i + 1]|;
    }
  }

  lemma FillMade(items: Items, grown: Items, was: Items, cache: map<string, Id>, had: map<string, Id>, path: string,
                 i: nat, up: Id, c: Id)
    requires Canonical(path) && i < |Parts(path)| && Filling(items, was, cache, had, path, i, up)
    requires c !in items && c != ROOT && IsFolder(items, up) && Child(items, up, Parts(path)[i]).None?
    requires grown == items[c := Item(Parts(path)[i], up, true, [], 0)]
    ensures var key := KeyOf(Parts(path), i + 1);
            Filling(grown, was, cache[key := c], had, path, i + 1, c)
  {
    LevelMade(items, grown, was, Parts(path), i, up, c);
    StaysRight(cache, items, grown, Parts(path));
    Remember(cache, had, grown, path, i + 1, c);
    KeysFilledNext(cache, had, was, path, i, c);
  }

  /** Nothing beyond level `i` is there, so nothing beyond it can clash. */
  lemma NoClashBeyond(cache: map<string, Id>, items: Items, path: string, i: nat)
    requires Canonical(path) && i <= |Parts(path)|
    requires forall n :: i < n <= |Parts(path)| ==> Resolve(items, Parts(path)[..n]).None?
    requires forall n :: 1 <= n <= i && FileAt(items, Parts(path)[..n]) ==> KeyOf(Parts(path), n) in cache
    ensures !Clash(cache, items, Parts(path))
  {
  }

  lemma StayTwinned(items: Items, more: Items)
    requires Twinned(items) && Extends(more, items)
    ensures Twinned(more)
  {
    var a, b :| a in items && b in items && a != b && Twins(items, a, b);
    assert Twins(more, a, b);
  }

  /** The path leads to a folder or, where that was there before, to a file; missing levels were made and every item
      is as it was. */
  ghost predicate Made(was: Items, items: Items, parts: seq<string>, id: Id) {
    && LevelsMade(was, items, parts) && Resolve(items, parts) == Some(id)
    && (if Resolve(was, parts).Some? then items == was else IsFolder(items, id))
  }

  /** What asking for a folder comes to: it fails exactly below a file, without having changed anything. */
  ghost predicate FolderAsked(was: Items, items: Items, parts: seq<string>, id: Option<Id>) {
    && (id.None? <==> BlockedLevel(was, parts))
    && (id.None? ==> items == was)
    && (id.Some? ==> Made(was, items, parts, id.value))
  }

  lemma AlreadyThere(items: Items, cache: map<string, Id>, path: string)
    requires Canonical(path) && Proper(items) && RightAlong(cache, items, Parts(path)) && path in cache
    ensures Made(items, items, Parts(path), cache[path])
    ensures !Clash(cache, items, Parts(path)) && !BlockedLevel(items, Parts(path)) && !Twinned(items)
  {
    var parts := Parts(path);
    assert Right(cache, items, path);
    KeyParts(path, |parts|);
    assert parts[..|parts|] == parts;
    forall n | 0 <= n < |parts| ensures !FileAt(items, parts[..n]) {
      PrefixIsFolder(items, parts, n);
    }
    ProperHasNoTwins(items);
  }

  /** The service made no folder because the parent is a file: nothing has changed. */
  lemma RefusedByFile(items: Items, was: Items, cache: map<string, Id>, had: map<string, Id>, path: string, i: nat,
                      up: Id)
    requires Canonical(path) && i < |Parts(path)| && Filling(items, was, cache, had, path, i, up)
    requires !IsFolder(items, up)
    ensures items == was && BlockedLevel(was, Parts(path)) && !Clash(had, was, Parts(path))
    ensures Coherent(had, was) ==> Coherent(cache, items)
  {
    var parts := Parts(path);
    assert FileAt(was, parts[..i]);
    forall n | i < n <= |parts| ensures Resolve(was, parts[..n]).None? {
      NothingBeyondFile(was, parts, i, n);
    }
    NoClashBeyond(had, was, path, i);
    if Coherent(had, was) { StaysCoherent(cache, had, was, items, parts); }
  }

  /** All levels are there. */
  lemma Filled(items: Items, was: Items, cache: map<string, Id>, had: map<string, Id>, path: string, id: Id)
    requires Canonical(path) && Filling(items, was, cache, had, path, |Parts(path)|, id)
    ensures Made(was, items, Parts(path), id)
    ensures !BlockedLevel(was, Parts(path)) && !Clash(had, was, Parts(path))
    ensures Coherent(had, was) ==> Coherent(cache, items)
  {
    var parts := Parts(path);
    assert parts[..|parts|] == parts;
    forall n | 0 <= n < |parts| ensures !FileAt(was, parts[..n]) {
      PrefixIsFolder(items, parts, n);
    }
    NoClashBeyond(had, was, path, |parts|);
    if Coherent(had, was) { StaysCoherent(cache, had, was, items, parts); }
  }

  lemma CachedLevel(items: Items, was: Items, cache: map<string, Id>, had: map<string, Id>, path: string, i: nat,
                    up: Id)
    requires Canonical(path) && i < |Parts(path)| && Filling(items, was, cache, had, path, i, up)
    requires KeyOf(Parts(path), i + 1) in cache
    ensures Filling(items, was, cache, had, path, i + 1, cache[KeyOf(Parts(path), i + 1)])
  {
    var key := KeyOf(Parts(path), i + 1);
    KeyParts(path, i + 1);
    assert Right(cache, items, key);
    FillKnown(items, was, cache, had, path, i, up, cache[key]);
    assert cache[key := cache[key]] == cache;
  }

  lemma FoundLevel(items: Items, was: Items, cache: map<string, Id>, had: map<string, Id>, path: string, i: nat, up: Id,
                   id: Id)
    requires Canonical(path) && i < |Parts(path)| && Filling(items, was, cache, had, path, i, up)
    requires IsChild(items, id, up, Parts(path)[i]) && items[id].folder
    ensures Filling(items, was, cache[KeyOf(Parts(path), i + 1) := id], had, path, i + 1, id)
  {
    var parts := Parts(path);
    assert parts[..i + 1] == parts[..i] + [parts[i]];
    ResolveLast(items, parts[..i], parts[i]);
    ChildUnique(items, id, up, parts[i]);
    FillKnown(items, was, cache, had, path, i, up, id);
  }

  /** What asking for a folder that the query did not find makes of the items. */
  lemma CreatedLevel(items: Items, after: Items, was: Items, cache: map<string, Id>, had: map<string, Id>, path: string,
                     i: nat, up: Id, created: Option<Id>)
    requires Canonical(path) && i < |Parts(path)| && Filling(items, was, cache, had, path, i, up)
    requires KeyOf(Parts(path), i + 1) !in cache && ROOT !in items
    requires forall a :: IsChild(items, a, up, Parts(path)[i]) ==> !items[a].folder
    requires created.None? <==> !IsFolder(items, up)
    requires created.None? ==> after == items
    requires created.Some? ==>
               && created.value !in items && created.value != ROOT
               && after == items[created.value := Item(Parts(path)[i], up, true, [], 0)]
    ensures Twinned(after) ==> Clash(had, was, Parts(path))
    ensures created.Some? && !Twinned(after) ==>
              Filling(after, was, cache[KeyOf(Parts(path), i + 1) := created.value], had, path, i + 1, created.value)
  {
    var parts, name := Parts(path), Parts(path)[i];
    assert parts[..i + 1] == parts[..i] + [name];
    ResolveLast(items, parts[..i], name);
    if Child(items, up, name).Some? {
      var f := Child(items, up, name).value;
      assert Hangs(items, f);
      assert FileAt(items, parts[..i + 1]) && !FileAt(items, parts[..i]);
      FileWasThere(items, was, cache, had, path, i, up);
      TwinFolder(items, f, created.value, up, name);
    } else if created.Some? {
      FillMade(items, after, was, cache, had, path, i, up, created.value);
      ProperHasNoTwins(after);
    } else {
      ProperHasNoTwins(after);
    }
  }

  lemma FileWasThere(items: Items, was: Items, cache: map<string, Id>, had: map<string, Id>, path: string, i: nat,
                     up: Id)
    requires Canonical(path) && i < |Parts(path)| && Filling(items, was, cache, had, path, i, up)
    requires FileAt(items, Parts(path)[..i + 1]) && KeyOf(Parts(path), i + 1) !in cache
    ensures Clash(had, was, Parts(path))
  {
    var parts := Parts(path);
    assert parts[..i + 1][..i] == parts[..i];
    ResolvePrefix(was, parts[..i + 1], i);
    assert FileAt(was, parts[..i + 1]);
  }

  // ----- what one operation does to the cache

  /** After a walk that found nothing, the cache is ready for the directory, and knows every file above it. */
  lemma ParentReady(cache: map<string, Id>, items: Items, parts: seq<string>)
    requires |parts| > 1 && RightAlong(cache, items, parts) && LevelsCached(cache, items, parts)
    ensures var dir := parts[..|parts| - 1]; RightAlong(cache, items, dir) && !Clash(cache, items, dir)
  {
    var dir := parts[..|parts| - 1];
    forall n | 1 <= n <= |dir| && FileAt(items, dir[..n]) ensures KeyOf(dir, n) in cache {
      assert dir[..n] == parts[..n];
      JoinFirstDependsOnPrefix(dir, parts, n);
    }
  }

  lemma GrewFurther(cache: map<string, Id>, looked: map<string, Id>, had: map<string, Id>, dir: seq<string>,
                    parts: seq<string>)
    requires GrewAlong(looked, had, parts) && GrewAlong(cache, looked, dir) && dir <= parts
    ensures GrewAlong(cache, had, parts)
  {
  }

  /** Where the path itself was missing, right along its directory is right along it. */
  lemma RightToTheEnd(cache: map<string, Id>, looked: map<string, Id>, was: Items, items: Items, parts: seq<string>)
    requires |parts| > 1 && RightAlong(looked, was, parts) && Resolve(was, parts).None?
    requires var dir := parts[..|parts| - 1]; GrewAlong(cache, looked, dir) && RightAlong(cache, items, dir)
    ensures RightAlong(cache, items, parts)
  {
    var dir := parts[..|parts| - 1];
    forall key | key in looked ensures Parts(key) != parts {
      assert Parts(key) <= parts ==> Right(looked, was, key);
    }
    forall key | key in cache && Parts(key) <= parts ensures Right(cache, items, key) {
      OneShorter(Parts(key), parts);
    }
  }

  lemma OneShorter(a: seq<string>, parts: seq<string>)
    requires parts != [] && a <= parts
    ensures a <= parts[..|parts| - 1] || a == parts
  {
  }

  lemma BlockedBelow(items: Items, parts: seq<string>)
    requires parts != [] && BlockedLevel(items, parts[..|parts| - 1])
    ensures BlockedLevel(items, parts)
  {
    var dir := parts[..|parts| - 1];
    var n :| 0 <= n < |dir| && FileAt(items, dir[..n]);
    assert dir[..n] == parts[..n];
  }

  lemma NotBlocked(was: Items, items: Items, parts: seq<string>, id: Id)
    requires parts != [] && Made(was, items, parts[..|parts| - 1], id) && IsFolder(items, id)
    requires !BlockedLevel(was, parts[..|parts| - 1])
    ensures !BlockedLevel(was, parts)
  {
    var dir := parts[..|parts| - 1];
    forall n | 0 <= n < |parts| ensures !FileAt(was, parts[..n]) {
      if n < |dir| {
        assert dir[..n] == parts[..n];
        assert !FileAt(was, dir[..n]);
      } else {
        assert parts[..n] == dir;
      }
    }
  }

  /** The path leads to a file with this content and time. */
  ghost predicate Holds(items: Items, parts: seq<string>, bytes: Bytes, modTime: int) {
    var id := Resolve(items, parts);
    && id.Some? && id.value in items && !items[id.value].folder
    && items[id.value].bytes == bytes && items[id.value].modTime == modTime
  }

  /** An upload changes a file, is refused by a folder and below a file, and otherwise makes a file. */
  ghost predicate Uploaded(items: Items, after: Items, parts: seq<string>, bytes: Bytes, modTime: int, ok: bool) {
    var found := Resolve(items, parts);
    if found.None? then
      if BlockedLevel(items, parts) then !ok && after == items
      else ok && LevelsMade(items, after, parts) && Holds(after, parts, bytes, modTime)
    else if IsFolder(items, found.value) || found.value !in items then !ok && after == items
    else ok && after == items[found.value := items[found.value].(bytes := bytes, modTime := modTime)]
  }

  /** The cache holds no key that continues the path. */
  ghost predicate NoKeyBelow(cache: map<string, Id>, fullPath: string)
    requires fullPath != ""
  {
    forall key :: key in cache && key != "" && key != fullPath ==> !(Parts(fullPath) <= Parts(key))
  }

  /** Looking the path up and dropping its key does not change which keys continue it. */
  lemma KeysBelow(left: map<string, Id>, had: map<string, Id>, fullPath: string)
    requires Canonical(fullPath) && Keyed(left) && fullPath !in left
    requires GrewAlong(left, had - {fullPath}, Parts(fullPath))
    ensures NoKeyBelow(left, fullPath) <==> NoKeyBelow(had, fullPath)
  {
    forall key | key in left && Parts(fullPath) <= Parts(key) && key !in had ensures false {
      assert Parts(key) == Parts(fullPath);
      PartsInjective(key, fullPath);
    }
  }

  lemma RightAfterCut(cache: map<string, Id>, items: Items, after: Items, fullPath: string)
    requires Canonical(fullPath) && RightAlong(cache, items, Parts(fullPath)) && CutAt(after, items, Parts(fullPath))
    ensures RightAlong(cache - {fullPath}, after, Parts(fullPath))
  {
    var left, parts := cache - {fullPath}, Parts(fullPath);
    forall key | key in left && Parts(key) <= parts ensures Right(left, after, key) {
      assert Right(cache, items, key);
      if parts <= Parts(key) { PartsInjective(key, fullPath); }
    }
  }

  lemma CoherentAfterDelete(left: map<string, Id>, before: Items, after: Items, at: seq<string>)
    requires Coherent(left, before) && CutAt(after, before, at)
    ensures Coherent(left, after) <==> forall key :: key in left ==> !(at <= Parts(key))
  {
    forall key | key in left ensures Right(left, after, key) <==> !(at <= Parts(key)) {
      assert Right(left, before, key);
    }
  }

  ghost predicate NothingUnder(items: Items, parts: seq<string>) {
    forall name :: Resolve(items, parts + [name]).None?
  }

  lemma LeafKeepsKeys(left: map<string, Id>, before: Items, fullPath: string)
    requires Coherent(left, before) && Canonical(fullPath) && fullPath !in left && NothingUnder(before, Parts(fullPath))
    ensures NoKeyBelow(left, fullPath)
  {
    forall key | key in left ensures !(Parts(fullPath) <= Parts(key)) {
      assert Right(left, before, key);
      if Parts(fullPath) <= Parts(key) { KeyBelow(before, fullPath, key); }
    }
  }

  /** A key below a path shows that the path has an entry. */
  lemma KeyBelow(items: Items, path: string, key: string)
    requires Canonical(path) && Canonical(key) && key != path && Parts(path) <= Parts(key)
    requires Resolve(items, Parts(key)).Some?
    ensures exists name :: Resolve(items, Parts(path) + [name]).Some?
  {
    var at, parts := Parts(path), Parts(key);
    if parts == at { PartsInjective(key, path); }
    ResolvePrefix(items, parts, |at| + 1);
    assert parts[..|at| + 1] == at + [parts[|at|]];
  }

  /** A right cache after a deletion: right exactly when it held no key below the path. */
  lemma Dropped(left: map<string, Id>, had: map<string, Id>, before: Items, after: Items, fullPath: string)
    requires Canonical(fullPath) && Coherent(had, before) && fullPath !in left && CutAt(after, before, Parts(fullPath))
    requires GrewAlong(left, had - {fullPath}, Parts(fullPath)) && RightAlong(left, after, Parts(fullPath))
    ensures Coherent(left, after) <==> NoKeyBelow(had, fullPath)
    ensures NothingUnder(before, Parts(fullPath)) ==> Coherent(left, after)
  {
    assert Coherent(left, before) by {
      forall key | key in left ensures Right(left, before, key) {
        if Parts(key) <= Parts(fullPath) { assert Right(left, after, key); }
        else { assert Right(had, before, key); }
      }
    }
    NoKeyAtPath(left, fullPath);
    CoherentAfterDelete(left, before, after, Parts(fullPath));
    KeysBelow(left, had, fullPath);
    if NothingUnder(before, Parts(fullPath)) { LeafKeepsKeys(left, before, fullPath); }
  }

  lemma NoKeyAtPath(left: map<string, Id>, fullPath: string)
    requires Canonical(fullPath) && Keyed(left) && fullPath !in left
    ensures NoKeyBelow(left, fullPath) <==> forall key :: key in left ==> !(Parts(fullPath) <= Parts(key))
  {
  }

  // ----- the adapter

  /** Every key is the root, a level of it, or a clean path below it. */
  ghost predicate KeysClean(cache: map<string, Id>, root: string)
    requires root != ""
  {
    forall key :: key in cache ==> Canonical(key) && (Parts(key) <= Parts(root) || CleanBelow(key, root))
  }

  ghost predicate CleanBelow(key: string, root: string)
    requires key != "" && root != ""
  {
    exists p :: Clean(p) && Parts(key) == Parts(root) + Split(p)
  }

  /** The full path of a clean relative one. */
  lemma FullParts(root: string, p: string)
    requires Canonical(root) && Clean(p)
    ensures var full := root + "/" + p;
            Canonical(full) && Parts(full) == Parts(root) + Split(p) && |Parts(full)| > 1
  {
    var full := root + "/" + p;
    assert full[1..] == root[1..] + "/" + p;
    SplitJoined(root[1..], p);
  }

  lemma OpenedRoot(cache: map<string, Id>, was: Items, items: Items, root: string, id: Id)
    requires Canonical(root) && Proper(items) && Coherent(cache, items) && GrewAlong(cache, map[], Parts(root))
    requires Made(was, items, Parts(root), id) && !Clash(map[], was, Parts(root))
    ensures Coherent(cache[root := id], items) && GrewAlong(cache[root := id], map[], Parts(root))
    ensures Rooted(items, Parts(root)) && KeysClean(cache[root := id], root)
  {
    var parts := Parts(root);
    assert parts[..|parts|] == parts;
    KeyParts(root, |parts|);
    if Resolve(was, parts).Some? { assert !FileAt(was, parts[..|parts|]); }
  }

  /** The content of the file that the path leads to. */
  ghost function ContentAt(items: Items, parts: seq<string>): Option<Bytes> {
    var id := Resolve(items, parts);
    if id.None? || id.value !in items || items[id.value].folder then None else Some(items[id.value].bytes)
  }

  class DriveAdapter {
    const service: DriveService
    const root: string
    var cache: map<string, Id>

    ghost predicate Valid()
      reads this, service
    {
      service.Valid() && Coherent(cache, service.items)
    }

    /** Enough for an operation on the path: the cache is right along it. */
    ghost predicate Ready(fullPath: string)
      requires fullPath != ""
      reads this, service
    {
      service.Valid() && RightAlong(cache, service.items, Parts(fullPath))
    }

    /** The key of the path is of an item that is gone. */
    ghost predicate Stale(fullPath: string)
      reads this, service
    {
      service.Valid() && fullPath in cache && cache[fullPath] != ROOT && cache[fullPath] !in service.items
    }

    /** Neither cache nor drive has changed. */
    twostate predicate Untouched()
      reads this, service
    {
      cache == old(cache) && service.items == old(service.items) && service.Valid()
    }

    /** The endpoint's root folder is there and every key is a level of it or a clean path below it. */
    ghost predicate Opened()
      reads this, service
    {
      Canonical(root) && Rooted(service.items, Parts(root)) && KeysClean(cache, root)
    }

    /** The tree of paths below the root. */
    ghost function Contents(): Tree
      requires root != ""
      reads this, service
    {
      TreeOf(service.items, Parts(root))
    }

    /** Opening an endpoint makes its root folder and remembers it, unless a file stands at a level of the root's path:
        then a folder of the same name is made. */
    constructor (service: DriveService, root: string)
      requires service.Valid() && Canonical(root)
      modifies service
      ensures this.service == service && this.root == root
      ensures Twinned(service.items) <==>
                exists n :: 0 <= n <= |Parts(root)| && FileAt(old(service.items), Parts(root)[..n])
      ensures !Twinned(service.items) ==>
                && Valid() && Opened() && GrewAlong(cache, map[], Parts(root))
                && LevelsMade(old(service.items), service.items, Parts(root))
    {
      this.service, this.root := service, root;
      cache := map[];
      new;
      ghost var was := service.items;
      assert Parts(root)[..0] == [] && Parts(root)[..|Parts(root)|] == Parts(root);
      var rootID := GetOrCreateFolderID(root);
      if rootID.Some? {
        if !Twinned(service.items) { OpenedRoot(cache, was, service.items, root, rootID.value); }
        cache := cache[root := rootID.value];
      }
    }

    /** getFileID: the cache first, else a walk that caches every level it passes. Where the cache is right along the
        path, the answer is the uncached walk's; a stale key is answered as it is. */
    method GetFileID(fullPath: string) returns (id: Option<Id>)
      requires Canonical(fullPath) && (Ready(fullPath) || Stale(fullPath))
      modifies `cache
      ensures old(Stale(fullPath)) ==> Untouched() && id == Some(cache[fullPath])
      ensures old(Ready(fullPath)) ==>
                && Ready(fullPath) && GrewAlong(cache, old(cache), Parts(fullPath))
                && id == Resolve(service.items, Parts(fullPath))
                && (if id.Some? then fullPath in cache else LevelsCached(cache, service.items, Parts(fullPath)))
                && (old(Valid()) ==> Valid())
    {
      var parts := Parts(fullPath);
      assert parts[..|parts|] == parts;
      KeyParts(fullPath, |parts|);
      if fullPath in cache { return Some(cache[fullPath]); }
      ghost var had := cache;
      var currentID := ROOT;
      for i := 0 to |parts|
        invariant LevelsPassed(cache, had, service.items, fullPath, i, currentID)
      {
        var found := service.Find(parts[i], currentID, false);
        WalkStep(service.items, parts, i, found);
        if found.None? {
          WalkEnds(cache, had, service.items, fullPath, i, currentID);
          return None;
        }
        WalkOn(cache, had, service.items, fullPath, i, currentID, found.value);
        currentID := found.value;
        cache := cache[KeyOf(parts, i + 1) := currentID];
      }
      LookedUp(cache, had, service.items, parts);
      return Some(currentID);
    }

    /** getOrCreateFolderID: the ID after making whatever folders were missing on the way; nothing else in the remote
        tree changes. Where a file stands at a level, the query for folders misses it: unless the cache knows the file,
        a folder of the same name is made beside it. If it does, its ID is taken for the folder's, and the service
        refuses to make anything below it. A stale key is answered as it is. */
    method GetOrCreateFolderID(fullPath: string) returns (id: Option<Id>)
      requires Canonical(fullPath) && (Ready(fullPath) || Stale(fullPath))
      modifies `cache, service
      ensures service.Numbered()
      ensures old(Stale(fullPath)) ==> Untouched() && id == Some(cache[fullPath])
      ensures old(Ready(fullPath)) ==>
                (Twinned(service.items) <==> Clash(old(cache), old(service.items), Parts(fullPath)))
      ensures old(Ready(fullPath)) && !Twinned(service.items) ==>
                && Ready(fullPath) && GrewAlong(cache, old(cache), Parts(fullPath))
                && FolderAsked(old(service.items), service.items, Parts(fullPath), id)
                && (old(Valid()) ==> Valid())
    {
      var parts := Parts(fullPath);
      ghost var was, had := service.items, cache;
      assert parts[..|parts|] == parts && parts[..0] == [];
      if fullPath in cache {
        if Ready(fullPath) { AlreadyThere(was, had, fullPath); }
        return Some(cache[fullPath]);
      }
      ProperHasNoTwins(was);
      var currentID := ROOT;
      for i := 0 to |parts|
        invariant service.Numbered() && (Twinned(service.items) ==> Clash(had, was, parts))
        invariant !Twinned(service.items) ==> Filling(service.items, was, cache, had, fullPath, i, currentID)
      {
        var next := FolderAt(fullPath, i, currentID, was, had);
        if next.None? {
          if !Twinned(service.items) { RefusedByFile(service.items, was, cache, had, fullPath, i, currentID); }
          return None;
        }
        currentID := next.value;
      }
      if !Twinned(service.items) { Filled(service.items, was, cache, had, fullPath, currentID); }
      return Some(currentID);
    }

    /** One level of the path: from the cache, by a query for a folder, or newly created. */
    method FolderAt(fullPath: string, i: nat, parent: Id, ghost was: Items, ghost had: map<string, Id>)
      returns (id: Option<Id>)
      requires Canonical(fullPath) && i < |Parts(fullPath)| && service.Numbered()
      requires !Twinned(service.items) ==> Filling(service.items, was, cache, had, fullPath, i, parent)
      modifies `cache, service
      ensures service.Numbered() && (old(Twinned(service.items)) ==> Twinned(service.items))
      ensures Twinned(service.items) ==> old(Twinned(service.items)) || Clash(had, was, Parts(fullPath))
      ensures !Twinned(service.items) && id.Some? ==>
                Filling(service.items, was, cache, had, fullPath, i + 1, id.value)
      ensures !Twinned(service.items) && id.None? ==>
                && service.items == old(service.items) && cache == old(cache)
                && !IsFolder(service.items, parent) && KeyOf(Parts(fullPath), i + 1) !in cache
    {
      var partialPath := KeyOf(Parts(fullPath), i + 1);
      if partialPath in cache {
        if !Twinned(service.items) { CachedLevel(service.items, was, cache, had, fullPath, i, parent); }
        return Some(cache[partialPath]);
      }
      id := FindOrCreate(fullPath, i, parent, was, had);
      if id.Some? { cache := cache[partialPath := id.value]; }
    }

    /** The query for a folder, and its creation where the query finds none. */
    method FindOrCreate(fullPath: string, i: nat, parent: Id, ghost was: Items, ghost had: map<string, Id>)
      returns (id: Option<Id>)
      requires Canonical(fullPath) && i < |Parts(fullPath)| && service.Numbered()
      requires KeyOf(Parts(fullPath), i + 1) !in cache
      requires !Twinned(service.items) ==> Filling(service.items, was, cache, had, fullPath, i, parent)
      modifies service
      ensures service.Numbered() && (old(Twinned(service.items)) ==> Twinned(service.items))
      ensures Twinned(service.items) ==> old(Twinned(service.items)) || Clash(had, was, Parts(fullPath))
      ensures !Twinned(service.items) && id.Some? ==>
                Filling(service.items, was, cache[KeyOf(Parts(fullPath), i + 1) := id.value], had, fullPath, i + 1,
                        id.value)
      ensures !Twinned(service.items) && id.None? ==>
                service.items == old(service.items) && !IsFolder(service.items, parent)
    {
      var name := Parts(fullPath)[i];
      ghost var items := service.items;
      id := service.Find(name, parent, true);
      if id.Some? {
        if !Twinned(items) { FoundLevel(items, was, cache, had, fullPath, i, parent, id.value); }
        return;
      }
      id := service.CreateItem(Item(name, parent, true, [], 0));
      if Twinned(items) {
        StayTwinned(items, service.items);
      } else {
        CreatedLevel(items, service.items, was, cache, had, fullPath, i, parent, id);
      }
    }

    /** The upload behind Write: an existing file gets the content, an existing folder refuses it; otherwise the
        parents are made and one file appears. A file above the path is known to the cache by then, so no folder is made
        beside it: the service refuses what should go below it. Through a stale key the upload fails. */
    method Upload(fullPath: string, bytes: Bytes, now: int) returns (ok: bool)
      requires Canonical(fullPath) && (Ready(fullPath) || Stale(fullPath)) && |Parts(fullPath)| > 1
      modifies `cache, service
      ensures old(Stale(fullPath)) ==> Untouched() && !ok
      ensures old(Ready(fullPath)) ==>
                && Ready(fullPath) && GrewAlong(cache, old(cache), Parts(fullPath))
                && Uploaded(old(service.items), service.items, Parts(fullPath), bytes, now, ok)
                && (old(Valid()) ==> Valid())
    {
      var parts := Parts(fullPath);
      var n := |parts| - 1;
      ghost var was, had, ready := service.items, cache, Ready(fullPath);
      var existing := GetFileID(fullPath);
      if existing.Some? {
        ok := service.UpdateContent(existing.value, bytes, now);
        if ready {
          StaysRight(cache, was, service.items, parts);
          if Coherent(had, was) { StaysCoherent(cache, had, was, service.items, parts); }
        }
        return;
      }
      KeyParts(fullPath, n);
      var dirPath := KeyOf(parts, n);
      ParentReady(cache, was, parts);
      ghost var looked := cache;
      var parentID := GetOrCreateFolderID(dirPath);
      GrewFurther(cache, looked, had, parts[..n], parts);
      if parentID.None? {
        BlockedBelow(was, parts);
        return false;
      }
      RightToTheEnd(cache, looked, was, service.items, parts);
      ghost var made := service.items;
      ok := CreateFile(parts, parentID.value, bytes, now, was);
      StaysRight(cache, made, service.items, parts);
      if Coherent(had, was) { StaysCoherent(cache, had, was, service.items, parts); }
    }

    /** A new file under what its upper levels lead to. */
    method CreateFile(parts: seq<string>, parent: Id, bytes: Bytes, now: int, ghost was: Items) returns (ok: bool)
      requires service.Valid() && Proper(was) && parts != [] && Resolve(was, parts).None?
      requires Made(was, service.items, parts[..|parts| - 1], parent)
      requires !BlockedLevel(was, parts[..|parts| - 1])
      modifies service
      ensures service.Valid() && Uploaded(was, service.items, parts, bytes, now, ok)
      ensures forall q :: Resolve(old(service.items), q).Some? ==>
                Resolve(service.items, q) == Resolve(old(service.items), q)
    {
      var n := |parts| - 1;
      ghost var before := service.items;
      var file := Item(parts[n], parent, false, bytes, now);
      assert parts == parts[..n] + [parts[n]];
      ResolveLast(before, parts[..n], parts[n]);
      assert !(parts <= parts[..n]);
      var created := service.CreateItem(file);
      if created.None? {
        assert FileAt(was, parts[..n]);
        return false;
      }
      AddItem(before, created.value, parts[..n], file);
      NotBlocked(was, before, parts, parent);
      return true;
    }

    /** The deletion behind Delete: the entry goes with everything below it, and one key leaves the cache. A right cache
        stays right exactly when it held no key below the deleted path, which is so whenever nothing was below it.
        Through a stale key the deletion fails, and the key stays. */
    method Discard(fullPath: string) returns (ok: bool)
      requires Canonical(fullPath) && (Ready(fullPath) || Stale(fullPath))
      modifies `cache, service
      ensures old(Stale(fullPath)) ==> Untouched() && !ok
      ensures old(Ready(fullPath)) ==> Ready(fullPath) && (ok <==> Resolve(old(service.items), Parts(fullPath)).Some?)
      ensures !ok ==> service.items == old(service.items) && GrewAlong(cache, old(cache), Parts(fullPath))
      ensures ok ==>
                && Extends(old(service.items), service.items)
                && CutAt(service.items, old(service.items), Parts(fullPath))
                && fullPath !in cache && GrewAlong(cache, old(cache) - {fullPath}, Parts(fullPath))
      ensures old(Valid()) ==>
                && (Valid() <==> !ok || NoKeyBelow(old(cache), fullPath))
                && (NothingUnder(old(service.items), Parts(fullPath)) ==> Valid())
    {
      var parts := Parts(fullPath);
      ghost var was, had := service.items, cache;
      var fileID := GetFileID(fullPath);
      if fileID.None? { return false; }
      ghost var looked := cache;
      var deleted := service.DeleteItem(fileID.value, parts);
      if !deleted { return false; }
      cache := cache - {fullPath};
      RightAfterCut(looked, was, service.items, fullPath);
      if Coherent(had, was) { Dropped(cache, had, was, service.items, fullPath); }
      return true;
    }

    /** The download behind Read: what the path leads to, and nothing through a stale key. */
    method Fetch(fullPath: string) returns (bytes: Option<Bytes>)
      requires Canonical(fullPath) && (Ready(fullPath) || Stale(fullPath))
      modifies `cache
      ensures old(Stale(fullPath)) ==> Untouched() && bytes.None?
      ensures old(Ready(fullPath)) ==>
                && Ready(fullPath) && GrewAlong(cache, old(cache), Parts(fullPath))
                && bytes == ContentAt(service.items, Parts(fullPath))
                && (old(Valid()) ==> Valid())
    {
      var id := GetFileID(fullPath);
      if id.None? { return None; }
      bytes := service.Download(id.value);
    }

    // ----- the operations on relative paths

    /** What a listing reports of a file's content. */
    function Sum(): Digest {
      (p, b) => service.md5(b)
    }

    /** The entries of one directory, each once, in whatever order the service gives them; nothing for a refused path or
        one that is not there. A file is listed as if it were an empty directory. */
    method List(dir: string) returns (listed: Option<seq<FileInfo>>)
      requires (dir == "" || Clean(dir)) && ReadyAt(dir) && Tidy(service.items)
      modifies `cache
      ensures ReadyAt(dir) && (old(Valid()) ==> Valid())
      ensures GrewAlong(cache, old(cache), Parts(FullPath(dir)))
      ensures listed.None? <==> Trees.Refused(dir) || (dir != "" && dir !in Contents())
      ensures listed.Some? && IsDirectory(Contents(), dir) ==> ListsEntries(listed.value, Contents(), dir, Sum())
    {
      if Trees.Refused(dir) { return None; }
      ghost var had, base := cache, Parts(root);
      DirPath(root, dir);
      if dir != "" { InTree(service.items, base, dir); }
      var folderID := GetFileID(FullPath(dir));
      KeysStayCleanAt(cache, had, root, dir);
      if folderID.None? { return None; }
      var ids := service.Children(folderID.value);
      var infos := Report(ids, dir);
      ReportsList(infos, ids, service.items, base, dir, Sum());
      return Some(infos);
    }

    /** The metadata of the listed items. */
    method Report(ids: seq<Id>, dir: string) returns (infos: seq<FileInfo>)
      requires forall a :: a in ids ==> a in service.items
      ensures Reports(infos, ids, service.items, dir, Sum())
    {
      infos := [];
      for i := 0 to |ids|
        invariant |infos| == i
        invariant forall j :: 0 <= j < i ==>
                    infos[j] == Info(Entry(dir, service.items[ids[j]].name), NodeOf(service.items[ids[j]]), Sum())
      {
        var item := service.items[ids[i]];
        infos := infos + [Info(Entry(dir, item.name), NodeOf(item), Sum())];
      }
    }

    /** joinPath, for a clean relative path that is not refused. */
    function FullPath(relPath: string): string {
      if relPath == "" then root else root + "/" + relPath
    }

    /** Enough for an operation on the relative path. */
    ghost predicate ReadyAt(relPath: string)
      reads this, service
    {
      Opened() && Ready(FullPath(relPath))
    }

    ghost predicate StaleAt(relPath: string)
      reads this, service
    {
      Canonical(root) && Stale(FullPath(relPath))
    }

    /** At the path or above it stands a file whose ID the cache does not hold. */
    ghost predicate UnknownFile(relPath: string)
      requires root != ""
      reads this, service
    {
      exists q :: (q == relPath || Below(relPath, q))
                  && q in Contents() && Contents()[q].File? && FullPath(q) !in cache
    }

    /** The directory and its parents are made, as on a local tree where no file is in the way; a known file above the
        path makes it fail and one at the path passes for a folder. A second item of one name is made exactly if an
        unknown file is in the way. A stale key passes for the directory, and nothing is made. */
    method Mkdir(relPath: string) returns (ok: bool)
      requires Clean(relPath) && (ReadyAt(relPath) || StaleAt(relPath))
      modifies `cache, service
      ensures old(StaleAt(relPath)) ==> Untouched() && (ok <==> !Refused(relPath))
      ensures old(ReadyAt(relPath)) ==>
                (Twinned(service.items) <==> !Refused(relPath) && old(UnknownFile(relPath)))
      ensures old(ReadyAt(relPath)) && !Twinned(service.items) ==>
                && ReadyAt(relPath) && (old(Valid()) ==> Valid())
                && Fills(service.items, old(service.items), Parts(FullPath(relPath)))
                && GrewAlong(cache, old(cache), Parts(FullPath(relPath)))
                && Outcome(Contents(), ok) == MakeFolder(old(Contents()), relPath)
    {
      ghost var was, had := service.items, cache;
      ghost var ready := ReadyAt(relPath);
      ProperHasNoTwins(was);
      if Trees.Refused(relPath) { return false; }
      FullParts(root, relPath);
      if ready { UnknownIsClash(this, relPath); }
      var id := GetOrCreateFolderID(FullPath(relPath));
      if ready && !Twinned(service.items) { FolderInTree(was, service.items, cache, had, root, relPath, id); }
      return id.Some?;
    }

    /** The content is written as on a local tree, without a temporary file. Through a stale key that fails. */
    method Write(relPath: string, bytes: Bytes, now: int) returns (ok: bool)
      requires Clean(relPath) && (ReadyAt(relPath) || StaleAt(relPath))
      modifies `cache, service
      ensures old(StaleAt(relPath)) ==> Untouched() && !ok
      ensures old(ReadyAt(relPath)) ==>
                && ReadyAt(relPath) && (old(Valid()) ==> Valid())
                && Fills(service.items, old(service.items), Parts(FullPath(relPath)))
                && GrewAlong(cache, old(cache), Parts(FullPath(relPath)))
                && Outcome(Contents(), ok) == Store(old(Contents()), relPath, bytes, now)
    {
      if Trees.Refused(relPath) { return false; }
      ghost var was, had, base, ready := service.items, cache, Parts(root), ReadyAt(relPath);
      FullParts(root, relPath);
      ok := Upload(FullPath(relPath), bytes, now);
      if ready {
        UploadFills(was, service.items, base + Split(relPath), bytes, now, ok);
        RootKeptByUpload(was, service.items, base, base + Split(relPath), bytes, now, ok);
        WrittenTree(was, service.items, base, relPath, bytes, now, ok);
        KeysStayClean(cache, had, root, relPath);
      }
    }

    /** An entry goes with everything below it. A right cache stays right exactly when it held no key below the path.
        Through a stale key nothing happens, and the key stays. */
    method Delete(relPath: string) returns (ok: bool)
      requires Clean(relPath) && (ReadyAt(relPath) || StaleAt(relPath))
      modifies `cache, service
      ensures old(StaleAt(relPath)) ==> Untouched() && !ok
      ensures old(ReadyAt(relPath)) ==>
                && ReadyAt(relPath) && (ok <==> !Refused(relPath) && relPath in old(Contents()))
                && Contents() == if ok then Sweep(old(Contents()), relPath) else old(Contents())
      ensures if ok then CutAt(service.items, old(service.items), Parts(FullPath(relPath)))
              else service.items == old(service.items)
      ensures ok ==> FullPath(relPath) !in cache && Extends(old(service.items), service.items)
      ensures GrewAlong(cache, if ok then old(cache) - {FullPath(relPath)} else old(cache), Parts(FullPath(relPath)))
      ensures old(Valid()) ==> (Valid() <==> !ok || NoKeyBelow(old(cache), FullPath(relPath)))
    {
      if Trees.Refused(relPath) { return false; }
      ghost var was, had, base, ready := service.items, cache, Parts(root), ReadyAt(relPath);
      FullParts(root, relPath);
      InTree(was, base, relPath);
      ok := Discard(FullPath(relPath));
      if ok { CutInTree(was, service.items, base, relPath); }
      if ready { KeysStayClean(cache, had, root, relPath); }
    }

    /** The bytes of a file, exactly as from a local tree. Through a stale key there are none. */
    method Read(relPath: string) returns (bytes: Option<Bytes>)
      requires Clean(relPath) && (ReadyAt(relPath) || StaleAt(relPath))
      modifies `cache
      ensures old(StaleAt(relPath)) ==> Untouched() && bytes.None?
      ensures old(ReadyAt(relPath)) ==>
                && ReadyAt(relPath) && (old(Valid()) ==> Valid())
                && GrewAlong(cache, old(cache), Parts(FullPath(relPath)))
                && bytes == Trees.Read(Contents(), relPath)
    {
      if Trees.Refused(relPath) { return None; }
      ghost var had, ready := cache, ReadyAt(relPath);
      FullParts(root, relPath);
      ReadInTree(service.items, Parts(root), relPath);
      bytes := Fetch(FullPath(relPath));
      if ready { KeysStayClean(cache, had, root, relPath); }
    }
  }

  /** A file on Drive is listed with the service's MD5 of its content, whatever its size. */
  lemma ListedWithSum(drive: DriveAdapter, items: seq<FileInfo>, dir: string, i: nat)
    requires drive.root != "" && ListsEntries(items, drive.Contents(), dir, drive.Sum()) && i < |items|
    requires items[i].kind == Regular
    ensures var p := items[i].path;
            && p in drive.Contents() && drive.Contents()[p].File?
            && items[i].checksum == drive.service.md5(drive.Contents()[p].bytes)
  {
  }

  /** What the tree reads at a path is the content of the item the path leads to. */
  lemma ReadInTree(items: Items, base: seq<string>, p: string)
    requires Proper(items) && Clean(p) && !Refused(p)
    ensures Trees.Read(TreeOf(items, base), p) == ContentAt(items, base + Split(p))
  {
    TreeAt(items, base, p);
    assert At(items, base, p) == Resolve(items, base + Split(p));
  }

  // ----- what operations on relative paths keep

  lemma DirPath(root: string, d: string)
    requires Canonical(root) && (d == "" || Clean(d))
    ensures var full := if d == "" then root else root + "/" + d;
            Canonical(full) && Parts(full) == Parts(root) + DirParts(d)
  {
    if d != "" { FullParts(root, d); }
  }

  lemma KeysStayCleanAt(cache: map<string, Id>, was: map<string, Id>, root: string, d: string)
    requires Canonical(root) && (d == "" || Clean(d)) && KeysClean(was, root) && Keyed(cache)
    requires GrewAlong(cache, was, Parts(root) + DirParts(d))
    ensures KeysClean(cache, root)
  {
    if d == "" {
      assert Parts(root) + [] == Parts(root);
    } else {
      KeysStayClean(cache, was, root, d);
    }
  }

  lemma KeysStayClean(cache: map<string, Id>, was: map<string, Id>, root: string, p: string)
    requires Canonical(root) && Clean(p) && KeysClean(was, root) && Keyed(cache)
    requires || GrewAlong(cache, was, Parts(root) + Split(p))
             || GrewAlong(cache, was - {root + "/" + p}, Parts(root) + Split(p))
    ensures KeysClean(cache, root)
  {
    forall key | key in cache ensures Canonical(key) && (Parts(key) <= Parts(root) || CleanBelow(key, root)) {
      if Parts(key) <= Parts(root) + Split(p) { LevelClean(key, root, p); }
    }
  }

  lemma LevelClean(key: string, root: string, p: string)
    requires Canonical(root) && Clean(p) && key != "" && Parts(key) <= Parts(root) + Split(p)
    ensures Parts(key) <= Parts(root) ||
            exists q :: Clean(q) && (q == p || Below(p, q)) && Parts(key) == Parts(root) + Split(q)
  {
    var n := |Parts(key)|;
    assert Parts(key) == (Parts(root) + Split(p))[..n];
    if n > |Parts(root)| {
      var q := LevelOf(Parts(root), p, n);
      if q != p { CleanAbove(p, q); }
      assert Clean(q) && Parts(key) == Parts(root) + Split(q);
    } else {
      assert (Parts(root) + Split(p))[..n] == Parts(root)[..n];
    }
  }

  /** An unknown file in the tree is a clash on the drive. */
  lemma ClashInTree(cache: map<string, Id>, items: Items, root: string, p: string)
    requires Proper(items) && Canonical(root) && Rooted(items, Parts(root)) && Clean(p)
    ensures Clash(cache, items, Parts(root) + Split(p)) <==>
            exists q :: (q == p || Below(p, q)) && q in TreeOf(items, Parts(root))
                        && TreeOf(items, Parts(root))[q].File? && root + "/" + q !in cache
  {
    var base, t := Parts(root), TreeOf(items, Parts(root));
    var parts := base + Split(p);
    FullParts(root, p);
    if Clash(cache, items, parts) {
      var n :| 1 <= n <= |parts| && FileAt(items, parts[..n]) && KeyOf(parts, n) !in cache;
      var q := FileInTree(items, base, p, n);
      KeyOfLevel(root, p, q, n);
    }
    if q :| (q == p || Below(p, q)) && q in t && t[q].File? && root + "/" + q !in cache {
      FileOnDrive(items, base, p, q);
      TreeAt(items, base, q);
      KeyOfLevel(root, p, q, |base + Split(q)|);
    }
  }

  lemma UnknownIsClash(drive: DriveAdapter, p: string)
    requires Clean(p) && drive.ReadyAt(p)
    ensures drive.UnknownFile(p) <==> Clash(drive.cache, drive.service.items, Parts(drive.FullPath(p)))
  {
    FullParts(drive.root, p);
    ClashInTree(drive.cache, drive.service.items, drive.root, p);
  }

  /** The key of a level is the full path of the directory at that level. */
  lemma KeyOfLevel(root: string, p: string, q: string, n: nat)
    requires Canonical(root) && Clean(p) && Clean(q) && 1 <= n <= |Parts(root) + Split(p)|
    requires (Parts(root) + Split(p))[..n] == Parts(root) + Split(q)
    ensures KeyOf(Parts(root) + Split(p), n) == root + "/" + q
  {
    FullParts(root, p);
    FullParts(root, q);
    KeyParts(root + "/" + p, n);
    PartsInjective(KeyOf(Parts(root) + Split(p), n), root + "/" + q);
  }

  lemma ResolvedIsItem(items: Items, parts: seq<string>)
    ensures Resolve(items, parts).Some? && parts != [] ==> Resolve(items, parts).value in items
  {
  }

  /** What making a folder did to the items is what it does to the tree; the root stays. */
  lemma MadeInTree(items: Items, after: Items, base: seq<string>, p: string, id: Id)
    requires Proper(items) && Proper(after) && Rooted(items, base) && Clean(p) && !Refused(p)
    requires Made(items, after, base + Split(p), id) && !FileAbove(TreeOf(items, base), p)
    ensures MakeFolder(TreeOf(items, base), p) == Outcome(TreeOf(after, base), true) && Rooted(after, base)
  {
    TreeAt(items, base, p);
    assert At(items, base, p) == Resolve(items, base + Split(p));
    assert At(after, base, p) == Resolve(after, base + Split(p));
    if !FileAt(items, base + Split(p)) {
      assert Shown(after, base, p) == Some(Dir);
      MadeFolders(items, after, base, p);
    }
  }

  lemma FolderInTree(items: Items, after: Items, cache: map<string, Id>, had: map<string, Id>, root: string, p: string,
                     id: Option<Id>)
    requires Proper(items) && Proper(after) && Canonical(root) && Rooted(items, Parts(root)) && Clean(p) && !Refused(p)
    requires FolderAsked(items, after, Parts(root) + Split(p), id) && KeysClean(had, root)
    requires Keyed(cache) && GrewAlong(cache, had, Parts(root) + Split(p))
    ensures Fills(after, items, Parts(root) + Split(p)) && Rooted(after, Parts(root)) && KeysClean(cache, root)
    ensures MakeFolder(TreeOf(items, Parts(root)), p) == Outcome(TreeOf(after, Parts(root)), id.Some?)
  {
    var base := Parts(root);
    KeysStayClean(cache, had, root, p);
    BlockedInTree(items, base, p);
    TreeWellFormed(items, base);
    if id.Some? { MadeInTree(items, after, base, p, id.value); }
  }

  lemma UploadFills(items: Items, after: Items, parts: seq<string>, bytes: Bytes, now: int, ok: bool)
    requires Proper(items) && Uploaded(items, after, parts, bytes, now, ok)
    ensures Fills(after, items, parts)
  {
    if Resolve(items, parts).Some? && ok {
      ChangeContent(items, after);
    }
  }

  /** An upload leaves the root. */
  lemma RootKeptByUpload(items: Items, after: Items, base: seq<string>, parts: seq<string>, bytes: Bytes, now: int,
                         ok: bool)
    requires Proper(items) && Rooted(items, base) && Uploaded(items, after, parts, bytes, now, ok)
    ensures Rooted(after, base)
  {
    if Resolve(items, parts).Some? && ok {
      ChangeContent(items, after);
    }
  }

  lemma InTree(items: Items, base: seq<string>, p: string)
    requires Proper(items) && Clean(p)
    ensures p in TreeOf(items, base) <==> Resolve(items, base + Split(p)).Some?
  {
    TreeAt(items, base, p);
    assert At(items, base, p) == Resolve(items, base + Split(p));
  }

  /** Deleting below the root leaves it and takes a subtree. */
  lemma CutInTree(items: Items, after: Items, base: seq<string>, p: string)
    requires Proper(items) && Proper(after) && Rooted(items, base)
    requires Extends(items, after) && CutAt(after, items, base + Split(p))
    ensures Rooted(after, base) && TreeOf(after, base) == Sweep(TreeOf(items, base), p)
  {
    assert !(base + Split(p) <= base);
    ResolvedIsItem(after, base);
    SweptTree(items, after, base, p);
  }

  /** What an upload did to the items is what a write does to the tree. */
  lemma WrittenTree(items: Items, after: Items, base: seq<string>, p: string, bytes: Bytes, now: int, ok: bool)
    requires Proper(items) && Proper(after) && Rooted(items, base) && Clean(p) && !Refused(p)
    requires Uploaded(items, after, base + Split(p), bytes, now, ok)
    ensures Store(TreeOf(items, base), p, bytes, now) == Outcome(TreeOf(after, base), ok)
  {
    assert At(items, base, p) == Resolve(items, base + Split(p));
    assert At(after, base, p) == Resolve(after, base + Split(p));
    TreeAt(items, base, p);
    TreeWellFormed(items, base);
    BlockedInTree(items, base, p);
    if At(items, base, p).None? {
      if ok { MadeFile(items, after, base, p, bytes, now); }
    } else {
      StoreOver(TreeOf(items, base), p, bytes, now);
      if ok { ChangedFile(items, base, p, bytes, now); }
    }
  }

  // ----- a key gone stale

  /** Looking up anything below a path leaves a key that continues the path. */
  lemma LookedUpBelow(cache: map<string, Id>, root: string, p: string, q: string)
    requires Canonical(root) && Clean(p) && Clean(q) && Below(q, p) && root + "/" + q in cache
    ensures !NoKeyBelow(cache, root + "/" + p) && root + "/" + q != root + "/" + p
  {
    FullParts(root, p);
    FullParts(root, q);
    LevelsOf(Parts(root), q, p);
    assert Parts(root + "/" + q) != Parts(root + "/" + p);
  }

  lemma EntryAbove(items: Items, base: seq<string>, p: string, q: string)
    requires Proper(items) && Clean(p) && Below(q, p) && Resolve(items, base + Split(q)).Some?
    ensures p in TreeOf(items, base)
  {
    assert At(items, base, q) == Resolve(items, base + Split(q));
    FolderAbove(items, base, q, p);
    TreeAt(items, base, p);
  }

  /** A new adapter for an endpoint, after looking up a path below its root. */
  method OpenAndLookUp(service: DriveService, root: string, q: string) returns (adapter: DriveAdapter)
    requires service.Valid() && Canonical(root) && Clean(q)
    requires Resolve(service.items, Parts(root) + Split(q)).Some?
    modifies service
    ensures fresh(adapter) && adapter.service == service && adapter.root == root
    ensures adapter.Valid() && adapter.Opened()
    ensures root + "/" + q in adapter.cache && Resolve(service.items, Parts(root) + Split(q)).Some?
  {
    FullParts(root, q);
    FoldersToRoot(service.items, Parts(root), Split(q));
    adapter := new DriveAdapter(service, root);
    ghost var had := adapter.cache;
    var found := adapter.GetFileID(root + "/" + q);
    KeysStayClean(adapter.cache, had, root, q);
  }

  lemma FoldersToRoot(items: Items, base: seq<string>, rest: seq<string>)
    requires Proper(items) && rest != [] && Resolve(items, base + rest).Some?
    ensures forall n :: 0 <= n <= |base| ==> !FileAt(items, base[..n])
  {
    forall n | 0 <= n <= |base| ensures !FileAt(items, base[..n]) {
      assert (base + rest)[..n] == base[..n];
      PrefixIsFolder(items, base + rest, n);
    }
  }

  /** The failing case, in any drive: open an endpoint, look up something below a folder and delete the folder. The key
      of what is gone stays behind, and no operation through it sees or changes anything from then on. */
  method StaleKey(service: DriveService, root: string, p: string, q: string) returns (adapter: DriveAdapter)
    requires service.Valid() && Canonical(root)
    requires Clean(p) && Clean(q) && Below(q, p) && !Refused(p)
    requires Resolve(service.items, Parts(root) + Split(q)).Some?
    modifies service
    ensures fresh(adapter) && adapter.service == service && adapter.root == root
    ensures root + "/" + q in adapter.cache && q !in adapter.Contents() && !adapter.Valid() && adapter.StaleAt(q)
  {
    adapter := OpenAndLookUp(service, root, q);
    DeleteAbove(adapter, p, q);
  }

  method DeleteAbove(adapter: DriveAdapter, p: string, q: string)
    requires adapter.Valid() && adapter.Opened() && adapter.root + "/" + q in adapter.cache
    requires Clean(p) && Clean(q) && Below(q, p) && !Refused(p)
    requires Resolve(adapter.service.items, Parts(adapter.root) + Split(q)).Some?
    modifies adapter`cache, adapter.service
    ensures adapter.root + "/" + q in adapter.cache && q !in adapter.Contents()
    ensures !adapter.Valid() && adapter.StaleAt(q)
  {
    ghost var had, t := adapter.cache, adapter.Contents();
    ghost var full, key := adapter.FullPath(p), adapter.root + "/" + q;
    EntryAbove(adapter.service.items, Parts(adapter.root), p, q);
    LookedUpBelow(had, adapter.root, p, q);
    FullParts(adapter.root, p);
    ghost var was := adapter.service.items;
    var ok := adapter.Delete(p);
    KeyStays(adapter.cache, had, full, key);
    assert q !in Sweep(t, p);
    KeyIsStale(adapter, was, had, p, q);
  }

  lemma KeyIsStale(adapter: DriveAdapter, was: Items, had: map<string, Id>, p: string, q: string)
    requires Canonical(adapter.root) && Clean(p) && Clean(q) && Below(q, p)
    requires Coherent(had, was) && Proper(was) && adapter.root + "/" + q in had
    requires adapter.service.Valid() && Extends(was, adapter.service.items)
    requires var full := adapter.root + "/" + p;
             && CutAt(adapter.service.items, was, Parts(full))
             && GrewAlong(adapter.cache, had - {full}, Parts(full))
    ensures adapter.StaleAt(q)
  {
    var full, key := adapter.root + "/" + p, adapter.root + "/" + q;
    FullParts(adapter.root, p);
    FullParts(adapter.root, q);
    LevelsOf(Parts(adapter.root), q, p);
    PathsDiffer(full, key, p, q);
    assert key in had - {full} && adapter.cache[key] == had[key];
    GoneWithCut(was, adapter.service.items, Parts(full), Parts(key));
    RootOnlyAtTop(was, Parts(key));
    assert adapter.FullPath(q) == key;
  }

  lemma PathsDiffer(full: string, key: string, p: string, q: string)
    requires Below(q, p) && |full| - |p| == |key| - |q|
    ensures full != key
  {
  }

  lemma KeyStays(cache: map<string, Id>, had: map<string, Id>, path: string, key: string)
    requires path != "" && key in had && key != path
    requires GrewAlong(cache, had - {path}, Parts(path)) || GrewAlong(cache, had, Parts(path))
    ensures key in cache
  {
    assert key in had - {path};
  }

  /** Folder "r" holds folder "d", which holds file "f". */
  function Nested(): Items {
    map[1 := Item("r", ROOT, true, [], 0), 2 := Item("d", 1, true, [], 0), 3 := Item("f", 2, false, [], 0)]
  }

  lemma NestedProper()
    ensures Proper(Nested())
  {
  }

  lemma NestedPaths()
    ensures Proper(Nested()) && Resolve(Nested(), []) == Some(ROOT)
    ensures Resolve(Nested(), ["r"]) == Some(1) && Resolve(Nested(), ["r", "d"]) == Some(2)
    ensures Resolve(Nested(), ["r", "d", "f"]) == Some(3)
  {
    var items := Nested();
    NestedProper();
    ChildUnique(items, 1, ROOT, "r");
    ChildUnique(items, 2, 1, "d");
    ChildUnique(items, 3, 2, "f");
    assert [] + ["r"] == ["r"] && ["r"] + ["d"] == ["r", "d"] && ["r", "d"] + ["f"] == ["r", "d", "f"];
    ResolveLast(items, [], "r");
    ResolveLast(items, ["r"], "d");
    ResolveLast(items, ["r", "d"], "f");
  }

  lemma OneName(c: char)
    requires c != '/'
    ensures Split([c]) == [[c]]
  {
    SplitGrows("", c);
    assert "" + [c] == [c];
  }

  lemma NestedNames()
    ensures Split("d") == ["d"] && Split("d/f") == ["d", "f"] && Parts("/r") == ["r"]
    ensures Canonical("/r") && Clean("d") && Clean("d/f")
  {
    OneName('r');
    OneName('d');
    OneName('f');
    SplitJoined("d", "f");
    assert "d" + "/" + "f" == "d/f" && "/r"[1..] == "r";
  }

  /** Such a drive: with root "/r", looking up "/r/d/f" and then deleting "/r/d". */
  lemma StaleKeyCase()
    ensures Proper(Nested()) && Canonical("/r")
    ensures Clean("d") && Clean("d/f") && Below("d/f", "d") && !Refused("d")
    ensures Resolve(Nested(), Parts("/r") + Split("d/f")).Some?
  {
    NestedPaths();
    NestedNames();
    assert ["r"] + ["d", "f"] == ["r", "d", "f"];
  }
}
