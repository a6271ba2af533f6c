/** Which paths a rule ignores (`ShouldIgnore` of package `planner`). */
module Ignore {
  import opened Paths
  import PlannerSpec

  /** The platform's path separator and filepath.Match; a malformed pattern matches nothing. */
  datatype Platform = Platform(separator: char, glob: (string, string) -> bool)

  function ToSlash(s: string, separator: char): string {
    seq(|s|, i requires 0 <= i < |s| => if s[i] == separator then '/' else s[i])
  }

  function TrimSlash(s: string): string {
    if s != "" && s[|s| - 1] == '/' then s[..|s| - 1] else s
  }

  /** A pattern matches a name as written or without its trailing slash. */
  predicate Hits(pattern: string, name: string, os: Platform) {
    var p := ToSlash(pattern, os.separator);
    os.glob(p, name) || (p != TrimSlash(p) && os.glob(TrimSlash(p), name))
  }

  /** The names a path can be ignored by: itself, the directories above it, and its components. */
  predicate NameOf(path: string, name: string) {
    name == path || Below(path, name) || name in Split(path)
  }

  /** Some pattern matches some name of the path. */
  ghost predicate Ignored(path: string, patterns: seq<string>, os: Platform) {
    exists k, name :: 0 <= k < |patterns| && NameOf(ToSlash(path, os.separator), name) && Hits(patterns[k], name, os)
  }

  ghost function IgnoredBy(patterns: seq<string>, os: Platform): string -> bool {
    p => Ignored(p, patterns, os)
  }

  /** For any glob matcher, ignoring a directory ignores everything below it. */
  lemma IgnoreClosed(patterns: seq<string>, os: Platform)
    ensures PlannerSpec.Closed(IgnoredBy(patterns, os))
  {
    forall p, q | Below(p, q) && IgnoredBy(patterns, os)(q) ensures IgnoredBy(patterns, os)(p) {
      var s, t := ToSlash(p, os.separator), ToSlash(q, os.separator);
      assert s[..|t|] == t && Below(s, t);
      var k, name :| 0 <= k < |patterns| && NameOf(t, name) && Hits(patterns[k], name, os);
      SplitBelow(s, t);
      if Below(t, name) { BelowTransitive(s, t, name); }
      assert NameOf(s, name);
    }
  }

  /** What is ignored, in terms of the texts alone. With separators turned into slashes, a pattern ignores a path if
      it matches, as written or without a final slash, the path, what stands before one of its slashes, or what stands
      between two of them. */
  lemma IgnoredMeans(path: string, patterns: seq<string>, os: Platform)
    ensures var s := seq(|path|, n requires 0 <= n < |path| => if path[n] == os.separator then '/' else path[n]);
            Ignored(path, patterns, os) <==>
            exists k, i, j :: 0 <= k < |patterns| && 0 <= i <= j <= |s|
              && (j == |s| || s[j] == '/')
              && (i == 0 || (s[i - 1] == '/' && forall n :: i <= n < j ==> s[n] != '/'))
              && var x := seq(|patterns[k]|, n requires 0 <= n < |patterns[k]| =>
                                if patterns[k][n] == os.separator then '/' else patterns[k][n]);
                 os.glob(x, s[i..j]) || (x != "" && x[|x| - 1] == '/' && os.glob(x[..|x| - 1], s[i..j]))
  {
    var s := ToSlash(path, os.separator);
    if Ignored(path, patterns, os) {
      var k, name :| 0 <= k < |patterns| && NameOf(s, name) && Hits(patterns[k], name, os);
      var i, j := NameSpan(s, name);
      assert s[i..j] == name && 0 <= k < |patterns|;
    }
    forall k, i, j | 0 <= k < |patterns| && 0 <= i <= j <= |s| && (j == |s| || s[j] == '/')
                     && (i == 0 || (s[i - 1] == '/' && forall n :: i <= n < j ==> s[n] != '/'))
                     && Hits(patterns[k], s[i..j], os)
      ensures Ignored(path, patterns, os)
    {
      SpanIsName(s, i, j);
    }
  }

  /** The path itself, a directory above it, or a component, by its place in the path. A directory above the path or
      the path itself may hold slashes, a component none. */
  lemma NameSpan(s: string, name: string) returns (i: nat, j: nat)
    requires NameOf(s, name)
    ensures i <= j <= |s| && s[i..j] == name && (j == |s| || s[j] == '/')
    ensures i == 0 || (s[i - 1] == '/' && forall n :: i <= n < j ==> s[n] != '/')
  {
    if name == s || Below(s, name) {
      return 0, |name|;
    }
    i, j := PartSpan(s, name);
    forall n | i <= n < j ensures s[n] != '/' {
      assert s[n] == s[i..j][n - i];
    }
  }

  lemma SpanIsName(s: string, i: nat, j: nat)
    requires i <= j <= |s| && (j == |s| || s[j] == '/')
    requires i == 0 || (s[i - 1] == '/' && forall n :: i <= n < j ==> s[n] != '/')
    ensures NameOf(s, s[i..j])
  {
    if i == 0 {
      assert s[..j] == s[i..j] && s[..|s|] == s;
    } else {
      SpanIsPart(s, i, j);
    }
  }

  /** Joining first parts enumerates the path and the directories above it, and nothing else. */
  lemma PrefixesAreNames(path: string, name: string)
    ensures name == path || Below(path, name) <==>
            exists n :: 1 <= n <= |Split(path)| && JoinFirst(Split(path), n) == name
  {
    if name == path {
      JoinSplit(path);
    } else if Below(path, name) {
      SplitBelow(path, name);
      JoinSplit(name);
      var n := |Split(name)|;
      assert Split(path)[..n] == Split(name)[..n];
      JoinFirstDependsOnPrefix(Split(path), Split(name), n);
    }
    forall n | 1 <= n <= |Split(path)| && JoinFirst(Split(path), n) == name ensures name == path || Below(path, name) {
      JoinFirstIsAbove(path, n);
    }
  }

  /** Case 3: some component matches. */
  method MatchesComponent(parts: seq<string>, pattern: string, os: Platform) returns (matched: bool)
    ensures matched <==> exists i :: 0 <= i < |parts| && Hits(pattern, parts[i], os)
  {
    var normalized := ToSlash(pattern, os.separator);
    var trimmed := TrimSlash(normalized);
    for i := 0 to |parts|
      invariant forall j :: 0 <= j < i ==> !Hits(pattern, parts[j], os)
    {
      if os.glob(normalized, parts[i]) { return true; }
      if normalized != trimmed && os.glob(trimmed, parts[i]) { return true; }
    }
    return false;
  }

  /** Case 4: some prefix of whole components matches. */
  method MatchesPrefix(parts: seq<string>, pattern: string, os: Platform) returns (matched: bool)
    requires parts != []
    ensures matched <==> exists n :: 1 <= n <= |parts| && Hits(pattern, JoinFirst(parts, n), os)
  {
    var normalized := ToSlash(pattern, os.separator);
    var trimmed := TrimSlash(normalized);
    var currentPrefix := "";
    for i := 0 to |parts|
      invariant if i == 0 then currentPrefix == "" else currentPrefix == JoinFirst(parts, i)
      invariant forall n :: 1 <= n <= i ==> !Hits(pattern, JoinFirst(parts, n), os)
    {
      if i > 0 { currentPrefix := currentPrefix + "/"; }
      currentPrefix := currentPrefix + parts[i];
      assert currentPrefix == JoinFirst(parts, i + 1);
      ghost var n := i + 1;
      assert 1 <= n <= |parts| && (Hits(pattern, currentPrefix, os) ==> Hits(pattern, JoinFirst(parts, n), os));
      if os.glob(normalized, currentPrefix) { return true; }
      if normalized != trimmed && os.glob(trimmed, currentPrefix) { return true; }
    }
    return false;
  }

  ghost predicate PatternIgnores(path: string, pattern: string, os: Platform) {
    exists name :: NameOf(path, name) && Hits(pattern, name, os)
  }

  /** The four cases in the order they are tried: the whole path, the whole path with the pattern's
      slash trimmed, each component, each prefix. */
  method MatchesPattern(path: string, pattern: string, os: Platform) returns (matched: bool)
    ensures matched <==> PatternIgnores(path, pattern, os)
  {
    var parts := Split(path);
    var normalized := ToSlash(pattern, os.separator);
    var trimmed := TrimSlash(normalized);
    assert NameOf(path, path);
    if os.glob(normalized, path) { return true; }
    if normalized != trimmed && os.glob(trimmed, path) { return true; }
    matched := MatchesComponent(parts, pattern, os);
    if matched {
      var i :| 0 <= i < |parts| && Hits(pattern, parts[i], os);
      assert NameOf(path, parts[i]);
      return;
    }
    matched := MatchesPrefix(parts, pattern, os);
    forall name
      ensures (name == path || Below(path, name)) <==> exists n :: 1 <= n <= |parts| && JoinFirst(parts, n) == name
    {
      PrefixesAreNames(path, name);
    }
    if matched {
      ghost var n :| 1 <= n <= |parts| && Hits(pattern, JoinFirst(parts, n), os);
      assert NameOf(path, JoinFirst(parts, n));
    } else {
      forall name | NameOf(path, name) ensures !Hits(pattern, name, os) {
        if name in parts {
          var i :| 0 <= i < |parts| && parts[i] == name;
          assert !Hits(pattern, parts[i], os);
        } else {
          var n :| 1 <= n <= |parts| && JoinFirst(parts, n) == name;
          assert !Hits(pattern, JoinFirst(parts, n), os);
        }
      }
    }
  }

  method ShouldIgnore(path: string, patterns: seq<string>, os: Platform) returns (ignored: bool)
    ensures ignored <==> Ignored(path, patterns, os)
  {
    if |patterns| == 0 { return false; }
    var normalized := ToSlash(path, os.separator);
    for k := 0 to |patterns|
      invariant forall j :: 0 <= j < k ==> !PatternIgnores(normalized, patterns[j], os)
    {
      var matched := MatchesPattern(normalized, patterns[k], os);
      if matched { return true; }
    }
    return false;
  }
}
