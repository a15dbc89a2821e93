/** The fragment of filepath.Match used by ordinary selectors: literals, `*` and `?`.  Neither
    wildcard matches a slash. */
module Globs {
  import opened Validity

  predicate Literal(c: char) {
    c != '*' && c != '?' && c != '[' && c != '\\'
  }

  predicate Simple(p: string) {
    '[' !in p && '\\' !in p
  }

  predicate Glob(p: string, s: string)
    decreases |p| + |s|
  {
    if p == [] then s == []
    else if p[0] == '*' then Glob(p[1..], s) || (s != [] && s[0] != '/' && Glob(p, s[1..]))
    else s != [] && (if p[0] == '?' then s[0] != '/' else s[0] == p[0]) && Glob(p[1..], s[1..])
  }

  /** `m` behaves like filepath.Match on every pattern of the fragment. */
  ghost predicate ExtendsGlob(m: Matcher) {
    forall p, s :: Simple(p) ==> m(p, s) == if Glob(p, s) then Yes else No
  }

  /** strings.ReplaceAll(node, "$", "*"): the pattern the controller matches when it has to pick one
      node on the test's behalf. */
  function Relax(p: string): (r: string)
    ensures |r| == |p|
    ensures forall i :: 0 <= i < |p| ==> r[i] == if p[i] == '$' then '*' else p[i]
  {
    if p == [] then [] else [if p[0] == '$' then '*' else p[0]] + Relax(p[1..])
  }

  /** Matching a concatenation of patterns is concatenation of matches.  Together with the
      one-character laws this determines Glob. */
  lemma {:induction false} GlobConcat(p: string, q: string, s: string)
    ensures Glob(p + q, s) <==> exists j :: 0 <= j <= |s| && Glob(p, s[..j]) && Glob(q, s[j..])
    decreases |p| + |s|
  {
    if Glob(p + q, s) {
      var j := SplitPoint(p, q, s);
    }
    forall j | 0 <= j <= |s| && Glob(p, s[..j]) && Glob(q, s[j..]) ensures Glob(p + q, s) {
      Glue(p, q, s, j);
    }
  }

  lemma {:induction false} SplitPoint(p: string, q: string, s: string) returns (j: nat)
    requires Glob(p + q, s)
    ensures j <= |s| && Glob(p, s[..j]) && Glob(q, s[j..])
    decreases |p| + |s|
  {
    if p == [] {
      assert p + q == q && s[0..] == s;
      return 0;
    }
    var w := p + q;
    assert w[1..] == p[1..] + q;
    if p[0] == '*' && Glob(w[1..], s) {
      j := SplitPoint(p[1..], q, s);
    } else {
      assert w[0] == p[0];
      var i := SplitPoint(if p[0] == '*' then p else p[1..], q, s[1..]);
      j := i + 1;
      assert s[..j][1..] == s[1..][..i] && s[j..] == s[1..][i..];
    }
  }

  lemma {:induction false} Glue(p: string, q: string, s: string, j: nat)
    requires j <= |s| && Glob(p, s[..j]) && Glob(q, s[j..])
    ensures Glob(p + q, s)
    decreases |p| + |s|
  {
    var w := p + q;
    if p == [] {
      assert w == q && s[j..] == s;
    } else {
      assert w[1..] == p[1..] + q;
      if p[0] == '*' && Glob(p[1..], s[..j]) {
        Glue(p[1..], q, s, j);
      } else {
        assert s[..j][1..] == s[1..][..j - 1] && s[j..] == s[1..][j - 1..];
        Glue(if p[0] == '*' then p else p[1..], q, s[1..], j - 1);
      }
    }
  }

  lemma {:induction false} GlobLiteral(p: string, s: string)
    requires forall i :: 0 <= i < |p| ==> Literal(p[i])
    ensures Glob(p, s) <==> p == s
  {
    if p != [] && s != [] {
      GlobLiteral(p[1..], s[1..]);
      assert p == [p[0]] + p[1..] && s == [s[0]] + s[1..];
    }
  }

  lemma {:induction false} GlobStar(s: string)
    ensures Glob("*", s) <==> '/' !in s
  {
    if s != [] {
      GlobStar(s[1..]);
    }
  }

  /** `?` stands for one character other than a slash. */
  lemma GlobQuestion(s: string)
    ensures Glob("?", s) <==> |s| == 1 && s[0] != '/'
  {
    if s != [] {
      assert "?"[1..] == [];
      assert Glob([], s[1..]) <==> s[1..] == [];
    }
  }

  /** `node: worker*` selects exactly the (slash-free) node names with the prefix `worker`. */
  lemma GlobPrefix(w: string, s: string)
    requires forall i :: 0 <= i < |w| ==> Literal(w[i])
    ensures Glob(w + "*", s) <==> w <= s && '/' !in s[|w|..]
  {
    GlobConcat(w, "*", s);
    forall j | 0 <= j <= |s| ensures Glob(w, s[..j]) <==> w == s[..j] {
      GlobLiteral(w, s[..j]);
    }
    forall j | 0 <= j <= |s| ensures Glob("*", s[j..]) <==> '/' !in s[j..] {
      GlobStar(s[j..]);
    }
    if w <= s && '/' !in s[|w|..] {
      assert Glob(w, s[..|w|]) && Glob("*", s[|w|..]);
    }
  }

  /** A literal character of the pattern occurs in everything it matches: a selector that still
      carries `$` matches no `$`-free name. */
  lemma {:induction false} GlobNeedsLiteral(p: string, s: string, c: char)
    requires Literal(c) && c in p && Glob(p, s)
    ensures c in s
    decreases |p| + |s|
  {
    if p[0] == '*' && !Glob(p[1..], s) {
      GlobNeedsLiteral(p, s[1..], c);
    } else if p[0] == '*' {
      GlobNeedsLiteral(p[1..], s, c);
    } else if p[0] != c {
      GlobNeedsLiteral(p[1..], s[1..], c);
    }
  }
}
