/** Search terms as LIKE patterns. Source: src/common/utils/like.util.ts. The pattern language is
    LIKE of section 8.5 of ISO/IEC 9075-2, with backslash for the escape character. */
module LikeSearch {
  import opened Text

  predicate Special(c: char) {
    c == '\\' || c == '%' || c == '_'
  }

  /** Every special character of the term behind a backslash. */
  function EscapeLike(term: string): string {
    if term == "" then ""
    else (if Special(term[0]) then ['\\', term[0]] else [term[0]]) + EscapeLike(term[1..])
  }

  /** The pattern a search runs with. */
  function LikeContains(term: string): string {
    "%" + EscapeLike(Trim(term)) + "%"
  }

  /** Whether a string is LIKE a pattern: `%` stands for any characters, `_` for any one, and a
      backslash takes the next character literally. */
  predicate Matches(s: string, p: string)
    decreases |p|, |s|
  {
    if p == "" then s == ""
    else if p[0] == '%' then Matches(s, p[1..]) || (s != "" && Matches(s[1..], p))
    else if p[0] == '\\' then |p| > 1 && s != "" && s[0] == p[1] && Matches(s[1..], p[2..])
    else s != "" && (p[0] == '_' || p[0] == s[0]) && Matches(s[1..], p[1..])
  }

  /** A pattern that ends in an escape with nothing to take is an error in SQL. */
  predicate Dangling(p: string) {
    if p == "" then false
    else if p[0] == '\\' then |p| == 1 || Dangling(p[2..])
    else Dangling(p[1..])
  }

  predicate OccursAt(t: string, s: string, i: nat) {
    i + |t| <= |s| && s[i..i + |t|] == t
  }

  predicate Occurs(t: string, s: string) {
    exists i :: 0 <= i <= |s| && OccursAt(t, s, i)
  }

  lemma {:induction false} EscapedHead(t: string, p: string)
    requires t != ""
    ensures EscapeLike(t) + p == (if Special(t[0]) then ['\\', t[0]] else [t[0]]) + (EscapeLike(t[1..]) + p)
  {
    Joined(if Special(t[0]) then ['\\', t[0]] else [t[0]], EscapeLike(t[1..]), p);
  }

  lemma {:induction false} Joined(a: string, b: string, c: string)
    ensures (a + b) + c == a + (b + c)
  {}

  lemma {:induction false} Within(s: string, i: nat, n: nat)
    requires i + 1 + n <= |s|
    ensures s[1..][i..i + n] == s[i + 1..i + 1 + n]
  {}

  /** An escaped term matches itself and nothing else. */
  lemma {:induction false} EscapedIsLiteral(s: string, t: string, p: string)
    ensures Matches(s, EscapeLike(t) + p) <==> OccursAt(t, s, 0) && Matches(s[|t|..], p)
  {
    var q := EscapeLike(t) + p;
    if t == "" {
      assert q == p && s[0..] == s;
    } else {
      EscapedHead(t, p);
      assert q[if Special(t[0]) then 2 else 1..] == EscapeLike(t[1..]) + p;
      if s != "" {
        EscapedIsLiteral(s[1..], t[1..], p);
        if |t| <= |s| {
          assert s[0..|t|] == [s[0]] + s[1..][0..|t| - 1] && t == [t[0]] + t[1..];
          assert s[|t|..] == s[1..][|t| - 1..];
        }
      }
    }
  }

  lemma {:induction false} PercentMatchesAll(s: string)
    ensures Matches(s, "%")
  {
    if s != "" {
      PercentMatchesAll(s[1..]);
    } else {
      assert "%"[1..] == "";
    }
  }

  lemma {:induction false} PercentSlides(s: string, t: string)
    ensures Matches(s, "%" + (EscapeLike(t) + "%")) <==> Occurs(t, s)
  {
    var q := EscapeLike(t) + "%";
    var p := "%" + q;
    assert p[1..] == q;
    EscapedIsLiteral(s, t, "%");
    if |t| <= |s| { PercentMatchesAll(s[|t|..]); }
    if s != "" {
      PercentSlides(s[1..], t);
      assert Occurs(t, s) <==> OccursAt(t, s, 0) || Occurs(t, s[1..]) by {
        Shift(t, s);
      }
    } else {
      assert Occurs(t, s) <==> OccursAt(t, s, 0);
    }
  }

  lemma {:induction false} Shift(t: string, s: string)
    requires s != ""
    ensures Occurs(t, s) <==> OccursAt(t, s, 0) || Occurs(t, s[1..])
  {
    forall i | 0 <= i < |s| ensures OccursAt(t, s, i + 1) <==> OccursAt(t, s[1..], i) {
      if i + 1 + |t| <= |s| {
        Within(s, i, |t|);
      }
    }
    if OccursAt(t, s, 0) || Occurs(t, s[1..]) {
      if !OccursAt(t, s, 0) {
        var i :| 0 <= i <= |s[1..]| && OccursAt(t, s[1..], i);
        assert OccursAt(t, s, i + 1);
      }
    }
    if Occurs(t, s) && !OccursAt(t, s, 0) {
      var i :| 0 <= i <= |s| && OccursAt(t, s, i);
      assert OccursAt(t, s[1..], i - 1);
    }
  }

  /** A string is found exactly when the trimmed term occurs in it, character for character. */
  lemma {:induction false} SearchIsLiteral(s: string, term: string)
    ensures Matches(s, LikeContains(term)) <==> Occurs(Trim(term), s)
  {
    var t := Trim(term);
    assert LikeContains(term) == "%" + (EscapeLike(t) + "%");
    PercentSlides(s, t);
  }

  lemma {:induction false} EscapedNeverDangles(t: string, p: string)
    ensures Dangling(EscapeLike(t) + p) <==> Dangling(p)
  {
    if t == "" {
      assert EscapeLike(t) + p == p;
    } else {
      EscapedHead(t, p);
      EscapedNeverDangles(t[1..], p);
      var q := EscapeLike(t) + p;
      assert q[if Special(t[0]) then 2 else 1..] == EscapeLike(t[1..]) + p;
    }
  }

  /** No term makes the database refuse the pattern. */
  lemma {:induction false} SearchIsAccepted(term: string)
    ensures !Dangling(LikeContains(term))
  {
    var t := Trim(term);
    assert LikeContains(term) == "%" + (EscapeLike(t) + "%");
    assert LikeContains(term)[1..] == EscapeLike(t) + "%";
    EscapedNeverDangles(t, "%");
    assert "%"[1..] == "";
  }

  ghost predicate SameHits(a: string, b: string) {
    forall s :: Matches(s, LikeContains(a)) == Matches(s, LikeContains(b))
  }

  /** Two terms find the same strings exactly when they are one term once trimmed. */
  lemma {:induction false} SearchesDiffer(a: string, b: string)
    ensures SameHits(a, b) <==> Trim(a) == Trim(b)
  {
    var t, u := Trim(a), Trim(b);
    if t == u {
      assert LikeContains(a) == LikeContains(b);
    }
    if SameHits(a, b) {
      SearchIsLiteral(t, a);
      SearchIsLiteral(t, b);
      SearchIsLiteral(u, a);
      SearchIsLiteral(u, b);
      assert OccursAt(t, t, 0) && OccursAt(u, u, 0);
      var i :| 0 <= i <= |t| && OccursAt(u, t, i);
      var j :| 0 <= j <= |u| && OccursAt(t, u, j);
      assert t == u;
    }
  }

  // ── ILIKE: both sides folded, character by character ───────────────────────

  type Folding = char -> char

  function Folded(s: string, fold: Folding): (r: string)
    ensures |r| == |s|
  {
    if s == "" then "" else [fold(s[0])] + Folded(s[1..], fold)
  }

  predicate MatchesFolded(s: string, p: string, fold: Folding) {
    Matches(Folded(s, fold), Folded(p, fold))
  }

  lemma {:induction false} FoldedJoin(a: string, b: string, fold: Folding)
    ensures Folded(a + b, fold) == Folded(a, fold) + Folded(b, fold)
  {
    if a == "" {
      assert a + b == b;
    } else {
      FoldedJoin(a[1..], b, fold);
      assert (a + b)[1..] == a[1..] + b;
      Joined([fold(a[0])], Folded(a[1..], fold), Folded(b, fold));
    }
  }

  /** Folding leaves the special characters alone and makes no others special. */
  ghost predicate KeepsSpecials(fold: Folding) {
    forall c :: if Special(c) then fold(c) == c else !Special(fold(c))
  }

  lemma {:induction false} FoldedEscape(t: string, fold: Folding)
    requires KeepsSpecials(fold)
    ensures Folded(EscapeLike(t), fold) == EscapeLike(Folded(t, fold))
  {
    if t != "" {
      FoldedEscape(t[1..], fold);
      var head := if Special(t[0]) then ['\\', t[0]] else [t[0]];
      FoldedJoin(head, EscapeLike(t[1..]), fold);
      assert head[1..] == if Special(t[0]) then [t[0]] else "";
      assert Folded(head, fold) == if Special(t[0]) then ['\\', t[0]] else [fold(t[0])];
      assert Folded(t, fold)[1..] == Folded(t[1..], fold);
    }
  }

  /** With case folded away the search is still literal. */
  lemma {:induction false} FoldedSearchIsLiteral(s: string, term: string, fold: Folding)
    requires KeepsSpecials(fold)
    ensures MatchesFolded(s, LikeContains(term), fold) <==> Occurs(Folded(Trim(term), fold), Folded(s, fold))
  {
    var t := Trim(term);
    FoldedJoin("%" + EscapeLike(t), "%", fold);
    FoldedJoin("%", EscapeLike(t), fold);
    FoldedEscape(t, fold);
    assert "%"[1..] == "" && Special('%');
    assert Folded("%", fold) == "%";
    assert Folded(LikeContains(term), fold) == "%" + (EscapeLike(Folded(t, fold)) + "%");
    PercentSlides(Folded(s, fold), Folded(t, fold));
  }
}
