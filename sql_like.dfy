/**
  The SQL `LIKE` operator as JPQL uses it without an ESCAPE clause:
  '%' matches any run of characters (possibly empty), '_' matches exactly one
  character, and every other pattern character matches itself.
 */
module SqlLike {

  /** `s LIKE p`; a pattern without wildcards matches only the string it spells. */
  function Like(s: string, p: string): (r: bool)
    ensures Literal(p) ==> (r <==> s == p)
    decreases |s| + |p|
  {
    if p == [] then s == []
    else if p[0] == '%' then Like(s, p[1..]) || (s != [] && Like(s[1..], p))
    else if p[0] == '_' then s != [] && Like(s[1..], p[1..])
    else s != [] && s[0] == p[0] && Like(s[1..], p[1..])
  }

  /** A pattern fragment holding neither wildcard, so it stands only for itself. */
  predicate Literal(t: string) {
    forall k :: 0 <= k < |t| ==> t[k] != '%' && t[k] != '_'
  }

  /** `t` occurs in `s` as a contiguous substring: it is a prefix of some suffix. */
  predicate Contains(s: string, t: string) {
    exists i :: 0 <= i <= |s| && t <= s[i..]
  }

  /** A lone '%' matches every string. */
  lemma {:induction false} LikePercent(s: string)
    ensures Like(s, "%")
  {
    assert "%"[1..] == [];
    if s != [] {
      LikePercent(s[1..]);
    }
  }

  /** A literal followed by '%' matches exactly the strings that start with the literal. */
  lemma {:induction false} LikePrefix(u: string, t: string)
    requires Literal(t)
    ensures Like(u, t + "%") <==> t <= u
  {
    if t == [] {
      assert t + "%" == "%";
      LikePercent(u);
    } else {
      var p := t + "%";
      assert p[0] == t[0] && p[1..] == t[1..] + "%";
      assert Literal(t[1..]);
      if u != [] {
        LikePrefix(u[1..], t[1..]);
        if |t| <= |u| {
          assert u[..|t|] == [u[0]] + u[1..][..|t| - 1];
          assert t == [t[0]] + t[1..];
        }
      }
    }
  }

  /** A leading '%' lets the rest of the pattern match any suffix. */
  lemma {:induction false} LikeSkip(s: string, q: string)
    ensures Like(s, "%" + q) <==> exists i :: 0 <= i <= |s| && Like(s[i..], q)
  {
    var p := "%" + q;
    assert p[0] == '%' && p[1..] == q;
    assert s[0..] == s;
    if s != [] {
      LikeSkip(s[1..], q);
      if Like(s[1..], p) {
        var i :| 0 <= i <= |s[1..]| && Like(s[1..][i..], q);
        assert s[1..][i..] == s[i + 1..];
      }
      if i :| 0 <= i <= |s| && Like(s[i..], q) {
        if i > 0 {
          assert s[1..][i - 1..] == s[i..];
        }
      }
    }
  }

  /** `%t%` with a literal `t` is a substring test. */
  lemma LikeContains(s: string, t: string)
    requires Literal(t)
    ensures Like(s, "%" + t + "%") <==> Contains(s, t)
  {
    assert "%" + t + "%" == "%" + (t + "%");
    LikeSkip(s, t + "%");
    forall i | 0 <= i <= |s|
      ensures Like(s[i..], t + "%") <==> t <= s[i..]
    {
      LikePrefix(s[i..], t);
    }
  }

  /** The substring reading of `%t%`, for every string at once. */
  lemma LikeContainsTodos(t: string)
    ensures Literal(t) ==> forall s :: Like(s, "%" + t + "%") <==> Contains(s, t)
  {
    if Literal(t) {
      forall s
        ensures Like(s, "%" + t + "%") <==> Contains(s, t)
      {
        LikeContains(s, t);
      }
    }
  }

}
