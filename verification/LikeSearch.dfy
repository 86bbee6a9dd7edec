/** The URL search of job_repo.go: a user's text, escaped, between two wildcards. */
module LikeSearch {

  /** LIKE with the default escape character, section 9.7.1 of the PostgreSQL manual.
      A pattern that ends in a lone backslash, an error there, matches nothing. */
  predicate Like(p: string, u: string)
    decreases |p| + |u|
  {
    if p == "" then u == ""
    else if p[0] == '%' then Like(p[1..], u) || (u != "" && Like(p, u[1..]))
    else if p[0] == '_' then u != "" && Like(p[1..], u[1..])
    else if p[0] == '\\' then |p| > 1 && u != "" && u[0] == p[1] && Like(p[2..], u[1..])
    else u != "" && u[0] == p[0] && Like(p[1..], u[1..])
  }

  predicate Meta(c: char) {
    c == '\\' || c == '%' || c == '_'
  }

  // likeEscaper
  function EscapeLike(s: string): string {
    if s == "" then ""
    else (if Meta(s[0]) then ['\\', s[0]] else [s[0]]) + EscapeLike(s[1..])
  }

  predicate StartsWith(u: string, s: string) {
    |s| <= |u| && u[..|s|] == s
  }

  ghost predicate Contains(u: string, s: string) {
    exists i :: 0 <= i <= |u| && StartsWith(u[i..], s)
  }

  lemma StartsWithFirst(u: string, s: string)
    requires u != "" && s != ""
    ensures StartsWith(u, s) <==> u[0] == s[0] && StartsWith(u[1..], s[1..])
  {
    if |s| <= |u| { assert u[..|s|] == [u[0]] + u[1..][..|s| - 1] && s == [s[0]] + s[1..]; }
  }

  /** An escaped text matches itself and nothing else. */
  lemma {:induction false} EscapedIsLiteral(s: string, p: string, u: string)
    ensures Like(EscapeLike(s) + p, u) <==> StartsWith(u, s) && Like(p, u[|s|..])
    decreases |s|
  {
    if s == "" {
      assert EscapeLike(s) + p == p && u[0..] == u;
    } else {
      var q := EscapeLike(s) + p;
      var rest := EscapeLike(s[1..]) + p;
      if Meta(s[0]) {
        assert q[0] == '\\' && q[1] == s[0] && q[2..] == rest;
      } else {
        assert q[0] == s[0] && q[1..] == rest;
      }
      if u == "" {
      } else {
        EscapedIsLiteral(s[1..], p, u[1..]);
        StartsWithFirst(u, s);
        if StartsWith(u, s) { assert u[1..][|s| - 1..] == u[|s|..]; }
      }
    }
  }

  lemma {:induction false} PercentMatchesAll(u: string)
    ensures Like("%", u)
    decreases |u|
  {
    assert "%"[1..] == "";
    if u == "" {
    } else {
      PercentMatchesAll(u[1..]);
    }
  }

  lemma {:induction false} AnywhereIn(s: string, u: string)
    ensures Like("%" + (EscapeLike(s) + "%"), u) <==> Contains(u, s)
    decreases |u|
  {
    var p := "%" + (EscapeLike(s) + "%");
    assert p[0] == '%' && p[1..] == EscapeLike(s) + "%";
    EscapedIsLiteral(s, "%", u);
    if StartsWith(u, s) {
      PercentMatchesAll(u[|s|..]);
      assert u[0..] == u;
    } else if u != "" {
      AnywhereIn(s, u[1..]);
      if Contains(u[1..], s) {
        var i :| 0 <= i <= |u[1..]| && StartsWith(u[1..][i..], s);
        assert u[1..][i..] == u[i + 1..];
      }
      if Contains(u, s) {
        var i :| 0 <= i <= |u| && StartsWith(u[i..], s);
        assert i != 0 by { assert u[0..] == u; }
        assert u[1..][i - 1..] == u[i..];
      }
    } else {
      assert u[0..] == u;
    }
  }

  // ---- ILIKE ----

  function Map(f: char -> char, s: string): string {
    if s == "" then "" else [f(s[0])] + Map(f, s[1..])
  }

  /** A case fold leaves the metacharacters alone and makes no new ones. */
  ghost predicate CaseFold(f: char -> char) {
    forall c :: (Meta(c) ==> f(c) == c) && (!Meta(c) ==> !Meta(f(c)))
  }

  predicate ILike(f: char -> char, p: string, u: string) {
    Like(Map(f, p), Map(f, u))
  }

  lemma {:induction false} MapAppend(f: char -> char, s: string, t: string)
    ensures Map(f, s + t) == Map(f, s) + Map(f, t)
  {
    if s == "" {
      assert s + t == t;
    } else {
      assert (s + t)[1..] == s[1..] + t;
      MapAppend(f, s[1..], t);
    }
  }

  lemma {:induction false} FoldEscaped(f: char -> char, s: string)
    requires CaseFold(f)
    ensures Map(f, EscapeLike(s)) == EscapeLike(Map(f, s))
  {
    if s == "" {
    } else {
      var head := if Meta(s[0]) then ['\\', s[0]] else [s[0]];
      MapAppend(f, head, EscapeLike(s[1..]));
      FoldEscaped(f, s[1..]);
      assert Map(f, s)[1..] == Map(f, s[1..]);
      if Meta(s[0]) {
        assert Meta('\\') && head[1..] == [s[0]] && [s[0]][1..] == "";
      } else {
        assert head[1..] == "";
      }
    }
  }

  /** The search finds exactly the URLs that contain the text, up to case. */
  lemma SearchIsSubstring(f: char -> char, s: string, u: string)
    requires CaseFold(f)
    ensures ILike(f, "%" + EscapeLike(s) + "%", u) <==> Contains(Map(f, u), Map(f, s))
  {
    MapAppend(f, "%" + EscapeLike(s), "%");
    MapAppend(f, "%", EscapeLike(s));
    FoldEscaped(f, s);
    assert Meta('%') && "%"[1..] == "" && Map(f, "%") == "%";
    assert Map(f, "%" + EscapeLike(s) + "%") == "%" + (EscapeLike(Map(f, s)) + "%");
    AnywhereIn(Map(f, s), Map(f, u));
  }
}
