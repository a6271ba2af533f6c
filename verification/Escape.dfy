/** Quoting names for Drive queries (`escapeQueryString` of package `gdrive`). */
module Escape {
  import opened Domain

  /** strings.ReplaceAll for a one-character pattern. */
  function ReplaceAll(s: string, c: char, with: string): string {
    if s == "" then "" else (if s[0] == c then with else [s[0]]) + ReplaceAll(s[1..], c, with)
  }

  /** Backslashes first, then quotes. */
  function EscapeQueryString(s: string): string {
    ReplaceAll(ReplaceAll(s, '\\', "\\\\"), '\'', "\\'")
  }

  /** What one character of a name becomes. */
  function Escaped(c: char): string {
    if c == '\\' || c == '\'' then ['\\', c] else [c]
  }

  function EscapeEach(s: string): string {
    if s == "" then "" else Escaped(s[0]) + EscapeEach(s[1..])
  }

  /** Character by character: a backslash goes before a backslash or a quote, and nothing else changes. */
  lemma {:induction false} EscapesOnly(s: string, c: char)
    ensures EscapeQueryString("") == ""
    ensures EscapeQueryString([c] + s) == (if c == '\\' || c == '\'' then ['\\', c] else [c]) + EscapeQueryString(s)
  {
    PassesArePerCharacter(s);
    PassesArePerCharacter([c] + s);
    assert ([c] + s)[1..] == s;
  }

  lemma Associates(a: string, b: string, c: string)
    ensures a + (b + c) == (a + b) + c
  {
  }

  lemma {:induction false} ReplaceAllConcat(a: string, b: string, c: char, with: string)
    ensures ReplaceAll(a + b, c, with) == ReplaceAll(a, c, with) + ReplaceAll(b, c, with)
  {
    if a == "" {
      assert a + b == b;
    } else {
      var head := if a[0] == c then with else [a[0]];
      ReplaceAllConcat(a[1..], b, c, with);
      assert (a + b)[0] == a[0] && (a + b)[1..] == a[1..] + b;
      assert ReplaceAll(a + b, c, with) == head + ReplaceAll(a[1..] + b, c, with);
      Associates(head, ReplaceAll(a[1..], c, with), ReplaceAll(b, c, with));
    }
  }

  /** The two whole-string passes act on each character by itself: the second pass never sees a quote or a
      backslash that the first one made as anything else. */
  lemma {:induction false} PassesArePerCharacter(s: string)
    ensures EscapeQueryString(s) == EscapeEach(s)
  {
    if s != "" {
      var head := if s[0] == '\\' then "\\\\" else [s[0]];
      var tail := ReplaceAll(s[1..], '\\', "\\\\");
      PassesArePerCharacter(s[1..]);
      ReplaceAllConcat(head, tail, '\'', "\\'");
      PassOnHead(s[0]);
    }
  }

  lemma PassOnHead(c: char)
    ensures ReplaceAll(if c == '\\' then "\\\\" else [c], '\'', "\\'") == Escaped(c)
  {
    if c == '\\' {
      assert "\\\\"[1..] == "\\" && "\\"[1..] == "";
      assert ReplaceAll("\\", '\'', "\\'") == "\\";
    } else {
      assert [c][1..] == "";
    }
  }

  /** A reader of the query language inside a quoted string: a backslash makes the next character literal,
      a quote ends the string. It yields the text and what follows the closing quote. */
  function ReadQuoted(q: string): Option<(string, string)> {
    if q == "" then None
    else if q[0] == '\'' then Some(("", q[1..]))
    else
      var escaped := q[0] == '\\';
      if escaped && |q| == 1 then None
      else
        var c, after := if escaped then q[1] else q[0], if escaped then q[2..] else q[1..];
        var r := ReadQuoted(after);
        if r.None? then None else Some(([c] + r.value.0, r.value.1))
  }

  /** Reading an escaped name back consumes exactly the escaped text and the closing quote and recovers the
      name, whatever follows it in the query. */
  lemma EscapeRoundTrip(s: string, rest: string)
    ensures ReadQuoted(EscapeQueryString(s) + "'" + rest) == Some((s, rest))
  {
    PassesArePerCharacter(s);
    ReadEscaped(s, rest);
  }

  lemma {:induction false} ReadEscaped(s: string, rest: string)
    ensures ReadQuoted(EscapeEach(s) + "'" + rest) == Some((s, rest))
  {
    if s == "" {
      assert EscapeEach(s) + "'" + rest == "'" + rest;
    } else {
      ReadEscaped(s[1..], rest);
      ReadOne(s[0], EscapeEach(s[1..]) + "'" + rest);
      assert EscapeEach(s) + "'" + rest == Escaped(s[0]) + (EscapeEach(s[1..]) + "'" + rest);
      assert s == [s[0]] + s[1..];
    }
  }

  lemma ReadOne(c: char, tail: string)
    ensures ReadQuoted(Escaped(c) + tail) ==
            var r := ReadQuoted(tail); if r.None? then None else Some(([c] + r.value.0, r.value.1))
  {
  }
}
