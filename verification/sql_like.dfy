/**
 * SQLite's `LIKE` operator as the search query uses it (no ESCAPE clause):
 * `%` matches any run of characters, `_` exactly one character, and any other
 * pattern character matches itself ignoring the case of ASCII letters.
 */
module SqlLike {
  import opened Text

  function Like(t: string, p: string): (r: bool)
    ensures r && (forall i :: 0 <= i < |p| ==> p[i] != '%') ==> |t| == |p|
    ensures r && p == [] ==> t == []
    decreases |p|, |t|
  {
    if p == [] then t == []
    else if p[0] == '%' then Like(t, p[1..]) || (t != [] && Like(t[1..], p))
    else if p[0] == '_' then t != [] && Like(t[1..], p[1..])
    else t != [] && FoldChar(t[0]) == FoldChar(p[0]) && Like(t[1..], p[1..])
  }

  /** `s` holds neither of the two wildcard characters. */
  predicate NoWildcards(s: string) {
    forall i :: 0 <= i < |s| ==> s[i] != '%' && s[i] != '_'
  }

  /** A lone `%` matches every text. */
  lemma {:induction false} LikePercentMatchesAll(t: string)
    ensures Like(t, "%")
  {
    assert "%"[1..] == [];
    if t != [] {
      LikePercentMatchesAll(t[1..]);
    }
  }

  /** Case-folded equality of non-empty strings, character by character from the front. */
  lemma FoldCaseCons(x: string, y: string)
    requires x != [] && y != []
    ensures FoldCase(x) == FoldCase(y) <==> FoldChar(x[0]) == FoldChar(y[0]) && FoldCase(x[1..]) == FoldCase(y[1..])
  {
    assert FoldCase(x) == [FoldChar(x[0])] + FoldCase(x[1..]);
    assert FoldCase(y) == [FoldChar(y[0])] + FoldCase(y[1..]);
    if FoldCase(x) == FoldCase(y) {
      assert FoldCase(x)[1..] == FoldCase(x[1..]);
      assert FoldCase(y)[1..] == FoldCase(y[1..]);
    }
  }

  /** A wildcard-free pattern prefix matches exactly a case-folded copy of itself at the front of the text. */
  lemma {:induction false} LikeLiteralPrefix(t: string, s: string, rest: string)
    requires NoWildcards(s)
    ensures Like(t, s + rest) <==>
      |s| <= |t| && FoldCase(t[..|s|]) == FoldCase(s) && Like(t[|s|..], rest)
    decreases |s|
  {
    if s == [] {
      assert s + rest == rest && t[..0] == [] && t[0..] == t;
    } else {
      var p := s + rest;
      assert p[0] == s[0] && p[1..] == s[1..] + rest;
      if t != [] {
        LikeLiteralPrefix(t[1..], s[1..], rest);
        if |s| <= |t| {
          FoldCaseCons(t[..|s|], s);
          assert t[..|s|][1..] == t[1..][..|s| - 1];
          assert t[|s|..] == t[1..][|s| - 1..];
        }
      }
    }
  }

  /** A leading `%` lets the rest of the pattern match any suffix of the text. */
  lemma {:induction false} LikeLeadingPercent(t: string, q: string)
    ensures Like(t, "%" + q) <==> exists i :: 0 <= i <= |t| && Like(t[i..], q)
  {
    var p := "%" + q;
    assert p[0] == '%' && p[1..] == q;
    assert t[0..] == t;
    if t != [] {
      LikeLeadingPercent(t[1..], q);
      if Like(t[1..], p) {
        var i :| 0 <= i <= |t[1..]| && Like(t[1..][i..], q);
        assert t[1..][i..] == t[i + 1..];
      }
      if exists i :: 0 <= i <= |t| && Like(t[i..], q) {
        var i :| 0 <= i <= |t| && Like(t[i..], q);
        if i > 0 {
          assert t[1..][i - 1..] == t[i..];
        }
      }
    }
  }

  /** For a wildcard-free query, `name LIKE '%' || query || '%'` is case-insensitive substring search. */
  lemma LikeContains(t: string, s: string)
    requires NoWildcards(s)
    ensures Like(t, "%" + s + "%") <==> ContainsIgnoreCase(t, s)
  {
    assert "%" + s + "%" == "%" + (s + "%");
    LikeLeadingPercent(t, s + "%");
    if Like(t, "%" + s + "%") {
      var i :| 0 <= i <= |t| && Like(t[i..], s + "%");
      LikeLiteralPrefix(t[i..], s, "%");
      assert t[i..][..|s|] == t[i..i + |s|];
      assert OccursAt(t, s, i);
    }
    if ContainsIgnoreCase(t, s) {
      var i :| OccursAt(t, s, i);
      LikeLiteralPrefix(t[i..], s, "%");
      assert t[i..][..|s|] == t[i..i + |s|];
      LikePercentMatchesAll(t[i..][|s|..]);
      assert Like(t[i..], s + "%");
    }
  }

  /** An empty query, `'%%'`, matches every name. */
  lemma EmptyQueryMatchesAll(t: string)
    ensures Like(t, "%" + "" + "%")
  {
    var p := "%" + "" + "%";
    assert p == "%%" && p[1..] == "%";
    LikePercentMatchesAll(t);
  }
}
