/** Search patterns: escaping a term so that SQL's LIKE reads it literally. */
module Like {
  import opened Text

  /** LIKE with its default escape character. A pattern that ends inside an escape, which PostgreSQL refuses, matches nothing. */
  predicate Matches(pattern: string, s: string)
    decreases |pattern|
  {
    if pattern == [] then s == []
    else if pattern[0] == '%' then exists k :: 0 <= k <= |s| && Matches(pattern[1..], s[k..])
    else if pattern[0] == '_' then s != [] && Matches(pattern[1..], s[1..])
    else if pattern[0] == '\\' then |pattern| > 1 && s != [] && s[0] == pattern[1] && Matches(pattern[2..], s[1..])
    else s != [] && s[0] == pattern[0] && Matches(pattern[1..], s[1..])
  }

  predicate Special(c: char) {
    c == '\\' || c == '%' || c == '_'
  }

  function Quoted(c: char): string {
    if Special(c) then ['\\', c] else [c]
  }

  /** Every character of `s`, quoted. */
  function Escaped(s: string): string {
    if s == [] then [] else Escaped(s[..|s| - 1]) + Quoted(s[|s| - 1])
  }

  /** Lower-case the term and put a backslash before each character LIKE would interpret. */
  method EscapeLike(term: string) returns (out: string)
    ensures out == Escaped(Lower(term))
  {
    out := [];
    var lower := Lower(term);
    for i := 0 to |lower|
      invariant out == Escaped(lower[..i])
    {
      assert lower[..i + 1][..i] == lower[..i];
      if lower[i] == '\\' || lower[i] == '%' || lower[i] == '_' {
        out := out + ['\\'];
      }
      out := out + [lower[i]];
    }
    assert lower[..|lower|] == lower;
  }

  function PrefixPattern(term: string): string {
    Escaped(Lower(term)) + "%"
  }

  function ContainsPattern(term: string): string {
    "%" + Escaped(Lower(term)) + "%"
  }

  method SearchPrefixPattern(term: string) returns (pattern: string)
    ensures pattern == PrefixPattern(term)
    ensures forall s :: Matches(pattern, s) <==> Lower(term) <= s
  {
    var escaped := EscapeLike(term);
    pattern := escaped + "%";
    forall s ensures Matches(pattern, s) <==> Lower(term) <= s {
      PrefixPatternIsExact(Lower(term), s);
    }
  }

  method SearchContainsPattern(term: string) returns (pattern: string)
    ensures pattern == ContainsPattern(term)
    ensures forall s :: Matches(pattern, s) <==> Contains(s, Lower(term))
  {
    var escaped := EscapeLike(term);
    pattern := "%" + escaped + "%";
    forall s ensures Matches(pattern, s) <==> Contains(s, Lower(term)) {
      ContainsPatternIsExact(Lower(term), s);
    }
  }

  predicate Contains(s: string, t: string) {
    exists k :: 0 <= k <= |s| && t <= s[k..]
  }

  // ---------------------------------------------------------------- exactness

  lemma QuotedMatches(c: char, rest: string, s: string)
    ensures Matches(Quoted(c) + rest, s) <==> s != [] && s[0] == c && Matches(rest, s[1..])
  {
    var pattern := Quoted(c) + rest;
    if Special(c) {
      assert pattern[0] == '\\' && pattern[1] == c && pattern[2..] == rest;
    } else {
      assert pattern[0] == c && pattern[1..] == rest;
    }
  }

  /** An escaped text consumes exactly itself, whatever pattern follows. */
  lemma {:induction false} EscapedMatches(t: string, rest: string, s: string)
    ensures Matches(Escaped(t) + rest, s) <==> t <= s && Matches(rest, s[|t|..])
    decreases |t|
  {
    if t == [] {
      assert Escaped(t) + rest == rest && s[0..] == s;
    } else {
      var n := |t| - 1;
      assert Escaped(t) + rest == Escaped(t[..n]) + (Quoted(t[n]) + rest);
      EscapedMatches(t[..n], Quoted(t[n]) + rest, s);
      if t[..n] <= s {
        QuotedMatches(t[n], rest, s[n..]);
        assert s[n..] != [] ==> s[n..][1..] == s[n + 1..] && s[n..][0] == s[n];
        assert t <= s <==> s[n..] != [] && s[n] == t[n];
      }
    }
  }

  lemma AnythingMatches(s: string)
    ensures Matches("%", s)
  {
    assert "%"[1..] == [] && s[|s|..] == [];
    assert Matches("%"[1..], s[|s|..]);
  }

  lemma PrefixPatternIsExact(t: string, s: string)
    ensures Matches(Escaped(t) + "%", s) <==> t <= s
  {
    EscapedMatches(t, "%", s);
    if t <= s {
      AnythingMatches(s[|t|..]);
    }
  }

  lemma ContainsPatternIsExact(t: string, s: string)
    ensures Matches("%" + Escaped(t) + "%", s) <==> Contains(s, t)
  {
    var pattern := "%" + Escaped(t) + "%";
    assert pattern[0] == '%' && pattern[1..] == Escaped(t) + "%";
    forall k | 0 <= k <= |s| ensures Matches(pattern[1..], s[k..]) <==> t <= s[k..] {
      PrefixPatternIsExact(t, s[k..]);
    }
  }
}
