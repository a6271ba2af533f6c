/** Slash-separated relative paths: ancestry, depth, byte order and splitting. */
module Paths {

  /** `p` lies strictly below directory `q`. */
  predicate Below(p: string, q: string) {
    |q| < |p| && p[..|q|] == q && p[|q|] == '/'
  }

  lemma BelowTransitive(p: string, q: string, r: string)
    requires Below(p, q) && Below(q, r)
    ensures Below(p, r)
  {
  }

  /** Two directories above one path are comparable. */
  lemma AncestorsAreLinear(p: string, q: string, r: string)
    requires Below(p, q) && Below(p, r) && |r| <= |q|
    ensures q == r || Below(q, r)
  {
  }

  /** The directories above `p`. */
  function Ancestors(p: string): (qs: set<string>)
    ensures forall q :: q in qs <==> Below(p, q)
  {
    var qs := set i | 0 <= i < |p| && p[i] == '/' :: p[..i];
    assert forall q :: q in qs ==> Below(p, q);
    assert forall q :: Below(p, q) ==> q == p[..|q|] && q in qs;
    qs
  }

  function Count(p: string, c: char): nat {
    if p == "" then 0
    else Count(p[..|p| - 1], c) + if p[|p| - 1] == c then 1 else 0
  }

  /** The planner's depth: separators of either kind. */
  function Depth(p: string): nat {
    Count(p, '/') + Count(p, '\\')
  }

  lemma {:induction false} CountOfPrefix(p: string, n: nat, c: char)
    requires n <= |p|
    ensures Count(p[..n], c) <= Count(p, c)
    ensures n < |p| && p[n] == c ==> Count(p[..n], c) < Count(p, c)
    decreases |p|
  {
    if n < |p| {
      var init := p[..|p| - 1];
      assert init[..n] == p[..n];
      CountOfPrefix(init, n, c);
    } else {
      assert p[..n] == p;
    }
  }

  lemma DepthBelow(p: string, q: string)
    requires Below(p, q)
    ensures Depth(q) < Depth(p)
  {
    CountOfPrefix(p, |q|, '/');
    CountOfPrefix(p, |q|, '\\');
  }

  /** The order of Go's string comparison. */
  predicate Precedes(a: string, b: string) {
    b != "" && (a == "" || a[0] < b[0] || (a[0] == b[0] && Precedes(a[1..], b[1..])))
  }

  lemma {:induction false} PrecedesTotal(a: string, b: string)
    ensures a == b || Precedes(a, b) || Precedes(b, a)
  {
    if a != "" && b != "" && a[0] == b[0] {
      PrecedesTotal(a[1..], b[1..]);
      assert a == [a[0]] + a[1..] && b == [b[0]] + b[1..];
    }
  }

  lemma {:induction false} PrecedesStrict(a: string, b: string)
    requires Precedes(a, b)
    ensures a != b && !Precedes(b, a)
  {
    if a != "" && a[0] == b[0] {
      PrecedesStrict(a[1..], b[1..]);
    }
  }

  lemma {:induction false} PrecedesTransitive(a: string, b: string, c: string)
    requires Precedes(a, b) && Precedes(b, c)
    ensures Precedes(a, c)
  {
    if a != "" && a[0] == b[0] && b[0] == c[0] {
      PrecedesTransitive(a[1..], b[1..], c[1..]);
    }
  }

  /** strings.Split(s, "/"). */
  function Split(s: string): (parts: seq<string>)
    ensures parts != []
  {
    if s == "" then [""]
    else
      var init, last := Split(s[..|s| - 1]), s[|s| - 1];
      if last == '/' then init + [""]
      else init[..|init| - 1] + [init[|init| - 1] + [last]]
  }

  /** The last part runs to the end. */
  lemma {:induction false} LastSpan(s: string) returns (i: nat, j: nat)
    ensures i <= j == |s| && Split(s)[|Split(s)| - 1] == s[i..] && '/' !in s[i..] && (i == 0 || s[i - 1] == '/')
  {
    if s == "" || s[|s| - 1] == '/' {
      return |s|, |s|;
    }
    var init, last := s[..|s| - 1], s[|s| - 1];
    i, j := LastSpan(init);
    j := |s|;
    assert s[i..] == init[i..] + [last];
  }

  /** Every other part ends at a separator. */
  lemma {:induction false} InnerSpan(s: string, k: nat) returns (i: nat, j: nat)
    requires k < |Split(s)| - 1
    ensures i <= j < |s| && Split(s)[k] == s[i..j] && '/' !in s[i..j] && (i == 0 || s[i - 1] == '/') && s[j] == '/'
  {
    var init, last := s[..|s| - 1], s[|s| - 1];
    if last == '/' && k == |Split(s)| - 2 {
      i, j := LastSpan(init);
      j := |init|;
      assert s[i..j] == init[i..];
    } else {
      i, j := InnerSpan(init, k);
      assert s[i..j] == init[i..j];
    }
  }

  /** A part of a text stands between two separators or the ends. */
  lemma PartSpan(s: string, part: string) returns (i: nat, j: nat)
    requires part in Split(s)
    ensures i <= j <= |s| && part == s[i..j] && '/' !in part
    ensures (i == 0 || s[i - 1] == '/') && (j == |s| || s[j] == '/')
  {
    var k :| 0 <= k < |Split(s)| && Split(s)[k] == part;
    if k == |Split(s)| - 1 {
      i, j := LastSpan(s);
    } else {
      i, j := InnerSpan(s, k);
    }
  }

  /** And what stands so is a part. */
  lemma {:induction false} SpanIsPart(s: string, i: nat, j: nat)
    requires i <= j <= |s| && '/' !in s[i..j] && (i == 0 || s[i - 1] == '/') && (j == |s| || s[j] == '/')
    ensures s[i..j] in Split(s)
    ensures j == |s| ==> s[i..j] == Split(s)[|Split(s)| - 1]
    decreases |s|, 2
  {
    if s == "" {
      assert s[i..j] == "";
    } else {
      var init, last := s[..|s| - 1], s[|s| - 1];
      if j < |s| {
        assert init[i..j] == s[i..j];
        SpanIsPart(init, i, j);
        PartStays(init, last, i, j);
      } else if i == |s| {
        assert s[i..j] == "" && Split(s)[|Split(s)| - 1] == "";
      } else {
        assert last == s[i..j][|s| - 1 - i];
        assert init[i..|init|] + [last] == s[i..j] && forall c :: c in init[i..|init|] ==> c in s[i..j];
        SpanIsPart(init, i, |init|);
      }
    }
  }

  lemma PartStays(init: string, last: char, i: nat, j: nat)
    requires i <= j <= |init| && init[i..j] in Split(init)
    requires j == |init| ==> last == '/'
    requires j < |init| ==> init[j] == '/'
    requires '/' !in init[i..j] && (i == 0 || init[i - 1] == '/')
    ensures init[i..j] in Split(init + [last])
    decreases |init|, 1
  {
    SplitGrows(init, last);
    if last != '/' { InnerIsInner(init, i, j); }
  }

  /** A part that ends at a separator is not only the last one. */
  lemma {:induction false} InnerIsInner(s: string, i: nat, j: nat)
    requires i <= j < |s| && s[j] == '/' && '/' !in s[i..j] && (i == 0 || s[i - 1] == '/')
    ensures s[i..j] in Split(s)[..|Split(s)| - 1]
    decreases |s|, 0
  {
    var init, last := s[..|s| - 1], s[|s| - 1];
    assert s[i..j] == init[i..j];
    if j == |init| {
      SpanIsPart(init, i, j);
    } else {
      InnerIsInner(init, i, j);
    }
  }

  /** The first `n` parts with "/" between them. */
  function JoinFirst(parts: seq<string>, n: nat): string
    requires 1 <= n <= |parts|
  {
    if n == 1 then parts[0] else JoinFirst(parts, n - 1) + "/" + parts[n - 1]
  }

  lemma {:induction false} JoinFirstDependsOnPrefix(a: seq<string>, b: seq<string>, n: nat)
    requires 1 <= n <= |a| && n <= |b| && a[..n] == b[..n]
    ensures JoinFirst(a, n) == JoinFirst(b, n)
  {
    assert a[n - 1] == a[..n][n - 1] == b[..n][n - 1] == b[n - 1];
    if n > 1 {
      assert a[..n - 1] == a[..n][..n - 1] == b[..n][..n - 1] == b[..n - 1];
      JoinFirstDependsOnPrefix(a, b, n - 1);
    }
  }

  /** Growing the last part by one character grows the joined text by that character. */
  lemma JoinGrows(parts: seq<string>, grown: seq<string>, n: nat, c: char)
    requires |parts| == |grown| == n > 0 && grown[..n - 1] == parts[..n - 1] && grown[n - 1] == parts[n - 1] + [c]
    ensures JoinFirst(grown, n) == JoinFirst(parts, n) + [c]
  {
    if n > 1 {
      JoinFirstDependsOnPrefix(grown, parts, n - 1);
      AppendAssociates(JoinFirst(parts, n - 1) + "/", parts[n - 1], [c]);
    }
  }

  lemma AppendAssociates(a: string, b: string, c: string)
    ensures a + (b + c) == (a + b) + c
  {
  }

  lemma {:induction false} JoinSplit(s: string)
    ensures JoinFirst(Split(s), |Split(s)|) == s
  {
    if s != "" {
      var init, last := Split(s[..|s| - 1]), s[|s| - 1];
      JoinSplit(s[..|s| - 1]);
      assert s == s[..|s| - 1] + [last];
      if last == '/' {
        JoinFirstDependsOnPrefix(Split(s), init, |init|);
        assert JoinFirst(Split(s), |init| + 1) == s[..|s| - 1] + "/" + "";
      } else {
        JoinGrows(init, Split(s), |init|, last);
      }
    }
  }

  /** The parts of a directory are the first parts of everything below it. */
  lemma {:induction false} SplitBelow(p: string, q: string)
    requires Below(p, q)
    ensures |Split(q)| < |Split(p)| && Split(p)[..|Split(q)|] == Split(q)
    decreases |p|
  {
    var init := p[..|p| - 1];
    if |p| == |q| + 1 {
      assert init == q;
    } else {
      assert init[..|q|] == p[..|q|];
      SplitBelow(init, q);
    }
  }

  /** Joining the first parts of a path yields the path itself or a directory above it. */
  lemma {:induction false} JoinFirstIsAbove(s: string, n: nat)
    requires 1 <= n <= |Split(s)|
    ensures var q := JoinFirst(Split(s), n); if n == |Split(s)| then q == s else Below(s, q)
    decreases |s|
  {
    if n == |Split(s)| {
      JoinSplit(s);
    } else {
      var init := s[..|s| - 1];
      assert Split(s)[..n] == Split(init)[..n];
      JoinFirstDependsOnPrefix(Split(s), Split(init), n);
      JoinFirstIsAbove(init, n);
      var q := JoinFirst(Split(s), n);
      assert q != init ==> s[..|q|] == init[..|q|];
    }
  }

  /** Splitting the join of the first parts gives those parts back. */
  lemma {:induction false} SplitJoinFirst(s: string, n: nat)
    requires 1 <= n <= |Split(s)|
    ensures Split(JoinFirst(Split(s), n)) == Split(s)[..n]
    decreases |s|
  {
    if n == |Split(s)| {
      JoinSplit(s);
    } else {
      var init := s[..|s| - 1];
      assert Split(s)[..n] == Split(init)[..n];
      JoinFirstDependsOnPrefix(Split(s), Split(init), n);
      SplitJoinFirst(init, n);
    }
  }

  /** One more character starts a new part or grows the last one. */
  function GrowParts(parts: seq<string>, c: char): seq<string>
    requires parts != []
  {
    if c == '/' then parts + [""] else parts[..|parts| - 1] + [parts[|parts| - 1] + [c]]
  }

  lemma SplitGrows(s: string, c: char)
    ensures Split(s + [c]) == GrowParts(Split(s), c)
  {
    assert (s + [c])[..|s|] == s;
  }

  lemma GrowAfter(parts: seq<string>, more: seq<string>, c: char)
    requires more != []
    ensures GrowParts(parts + more, c) == parts + GrowParts(more, c)
  {
    assert (parts + more)[..|parts + more| - 1] == parts + more[..|more| - 1];
  }

  lemma SplitJoinedNext(joined: string, parts: seq<string>, init: string, last: char)
    requires Split(joined) == parts + Split(init)
    ensures Split(joined + [last]) == parts + Split(init + [last])
  {
    SplitGrows(joined, last);
    SplitGrows(init, last);
    GrowAfter(parts, Split(init), last);
  }

  lemma JoinedLast(a: string, b: string)
    requires b != ""
    ensures b[..|b| - 1] + [b[|b| - 1]] == b
    ensures (a + "/" + b[..|b| - 1]) + [b[|b| - 1]] == a + "/" + b
  {
  }

  /** Joining two texts with a slash joins their parts. */
  lemma {:induction false} SplitJoined(a: string, b: string)
    ensures Split(a + "/" + b) == Split(a) + Split(b)
  {
    if b == "" {
      SplitGrows(a, '/');
      assert a + "/" + b == a + ['/'];
    } else {
      JoinedLast(a, b);
      SplitJoined(a, b[..|b| - 1]);
      SplitJoinedNext(a + "/" + b[..|b| - 1], Split(a), b[..|b| - 1], b[|b| - 1]);
    }
  }

  /** The first parts of a path are the parts of the path itself and of the directories above it. */
  lemma SplitPrefix(p: string, q: string)
    ensures Split(q) <= Split(p) <==> q == p || Below(p, q)
    ensures Split(q) == Split(p) <==> q == p
  {
    if Split(q) <= Split(p) {
      JoinFirstDependsOnPrefix(Split(q), Split(p), |Split(q)|);
      JoinSplit(q);
      JoinFirstIsAbove(p, |Split(q)|);
    }
    if Below(p, q) { SplitBelow(p, q); }
  }
}
