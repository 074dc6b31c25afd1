/**
 The admin search: wildcard escaping in three passes, PostgreSQL's pattern matching with an
 escape character, and the WHERE clause built from both.
 */
module LikeSearch {
  import opened Wrappers
  import Text

  const ESCAPE := '\\'

  // --- Escaping ---------------------------------------------------------

  /** str.replace of one character: a scan from the left over the whole string. */
  function Replace(s: string, from_: char, to: string): string {
    if s == [] then [] else (if s[0] == from_ then to else [s[0]]) + Replace(s[1..], from_, to)
  }

  /** Three passes, the escape character first. */
  function EscapeLikeWildcards(value: string): string {
    Replace(Replace(Replace(value, ESCAPE, [ESCAPE, ESCAPE]), '%', [ESCAPE, '%']), '_', [ESCAPE, '_'])
  }

  predicate IsWild(c: char) {
    c == ESCAPE || c == '%' || c == '_'
  }

  function EscapeChar(c: char): string {
    if IsWild(c) then [ESCAPE, c] else [c]
  }

  function EscapeEach(value: string): string {
    if value == [] then [] else EscapeChar(value[0]) + EscapeEach(value[1..])
  }

  lemma {:induction false} ReplaceConcat(a: string, b: string, from_: char, to: string)
    ensures Replace(a + b, from_, to) == Replace(a, from_, to) + Replace(b, from_, to)
  {
    if a == [] {
      assert a + b == b;
    } else {
      var head, rest := if a[0] == from_ then to else [a[0]], Replace(a[1..], from_, to);
      assert (a + b)[0] == a[0] && (a + b)[1..] == a[1..] + b;
      ReplaceConcat(a[1..], b, from_, to);
      assert head + (rest + Replace(b, from_, to)) == (head + rest) + Replace(b, from_, to);
    }
  }

  /** The three passes do not disturb each other: together they escape each character once. */
  lemma {:induction false} PassesEscapeEach(value: string)
    ensures EscapeLikeWildcards(value) == EscapeEach(value)
  {
    if value != [] {
      var c, rest := value[0], value[1..];
      assert value == [c] + rest;
      var first, r1 := Replace([c], ESCAPE, [ESCAPE, ESCAPE]), Replace(rest, ESCAPE, [ESCAPE, ESCAPE]);
      var second, r2 := Replace(first, '%', [ESCAPE, '%']), Replace(r1, '%', [ESCAPE, '%']);
      ReplaceConcat([c], rest, ESCAPE, [ESCAPE, ESCAPE]);
      ReplaceConcat(first, r1, '%', [ESCAPE, '%']);
      ReplaceConcat(second, r2, '_', [ESCAPE, '_']);
      assert Replace(second, '_', [ESCAPE, '_']) == EscapeChar(c) by {
        assert first == if c == ESCAPE then [ESCAPE, ESCAPE] else [c];
        assert second == if c == ESCAPE then [ESCAPE, ESCAPE] else if c == '%' then [ESCAPE, '%'] else [c];
      }
      PassesEscapeEach(rest);
    }
  }

  function Unescape(pattern: string): Option<string> {
    if pattern == [] then Some([])
    else if pattern[0] != ESCAPE then
      match Unescape(pattern[1..]) case Some(r) => Some([pattern[0]] + r) case None => None
    else if |pattern| < 2 then None
    else match Unescape(pattern[2..]) case Some(r) => Some([pattern[1]] + r) case None => None
  }

  /** Nothing is lost: unescaping gives the query back. */
  lemma {:induction false} UnescapeEscape(value: string)
    ensures Unescape(EscapeLikeWildcards(value)) == Some(value)
  {
    PassesEscapeEach(value);
    if value != [] {
      var c, rest := value[0], value[1..];
      UnescapeEscape(rest);
      PassesEscapeEach(rest);
      var e := EscapeEach(value);
      assert [c] + rest == value && e == EscapeChar(c) + EscapeEach(rest);
      if IsWild(c) {
        assert e[2..] == EscapeEach(rest);
      } else {
        assert e[0] == c && e[1..] == EscapeEach(rest);
      }
    }
  }

  // --- Matching (section 9.7.1 of the PostgreSQL 16 documentation) -------

  /** `%` stands for any run of characters, `_` for any one, the escape character for its successor
      taken literally; the pattern has to cover the whole text. */
  predicate Like(text: string, pattern: string)
    decreases |pattern|, |text|
  {
    if pattern == [] then text == []
    else if pattern[0] == '%' then Like(text, pattern[1..]) || (text != [] && Like(text[1..], pattern))
    else if text == [] then false
    else if pattern[0] == ESCAPE then |pattern| >= 2 && text[0] == pattern[1] && Like(text[1..], pattern[2..])
    else (pattern[0] == '_' || text[0] == pattern[0]) && Like(text[1..], pattern[1..])
  }

  /** What the two wildcards alone match. */
  lemma {:induction false} WildcardsMatch(text: string)
    ensures Like(text, "%")
    ensures Like(text, "_") <==> |text| == 1
    decreases |text|
  {
    assert "%"[1..] == [] && "_"[1..] == [];
    if text != [] {
      WildcardsMatch(text[1..]);
    }
  }

  predicate At(text: string, query: string, i: int) {
    0 <= i && i + |query| <= |text| && text[i..i + |query|] == query
  }

  predicate Contains(text: string, query: string) {
    exists i :: 0 <= i <= |text| && At(text, query, i)
  }

  lemma {:induction false} LikePercent(text: string)
    ensures Like(text, "%")
  {
    if text == [] {
      assert Like(text, "%"[1..]);
    } else {
      LikePercent(text[1..]);
    }
  }

  /** An escaped query followed by `%` matches exactly the texts that begin with it. */
  lemma {:induction false} LikePrefix(text: string, query: string)
    ensures Like(text, EscapeEach(query) + "%") <==> |query| <= |text| && text[..|query|] == query
  {
    var p := EscapeEach(query) + "%";
    if query == [] {
      assert p == "%";
      LikePercent(text);
    } else {
      var c, rest := query[0], query[1..];
      if text != [] {
        LikePrefix(text[1..], rest);
        if |query| <= |text| {
          assert text[..|query|] == [text[0]] + text[1..][..|rest|];
          assert query == [c] + rest;
        }
        if IsWild(c) {
          assert p[0] == ESCAPE && p[1] == c && p[2..] == EscapeEach(rest) + "%";
        } else {
          assert p[0] == c && p[1..] == EscapeEach(rest) + "%";
        }
      }
    }
  }

  /** A query is part of a text if the text begins with it or its rest contains it. */
  lemma ContainsStep(text: string, query: string)
    ensures Contains(text, query) <==>
              (|query| <= |text| && text[..|query|] == query) || (text != [] && Contains(text[1..], query))
  {
    assert At(text, query, 0) <==> |query| <= |text| && text[..|query|] == query;
    if text != [] {
      if Contains(text[1..], query) {
        var i :| 0 <= i <= |text[1..]| && At(text[1..], query, i);
        assert At(text, query, i + 1);
      }
      if Contains(text, query) {
        var i :| 0 <= i <= |text| && At(text, query, i);
        assert i > 0 ==> At(text[1..], query, i - 1);
      }
    }
  }

  lemma LikeStep(text: string, rest: string)
    ensures Like(text, "%" + rest) <==> Like(text, rest) || (text != [] && Like(text[1..], "%" + rest))
  {
    assert ("%" + rest)[1..] == rest;
  }

  /** The pattern built for a query matches a text exactly when the query is part of the text. */
  lemma {:induction false} LikeIsContains(text: string, query: string)
    ensures Like(text, "%" + EscapeLikeWildcards(query) + "%") <==> Contains(text, query)
  {
    PassesEscapeEach(query);
    var rest := EscapeEach(query) + "%";
    assert "%" + EscapeLikeWildcards(query) + "%" == "%" + rest;
    LikeStep(text, rest);
    LikePrefix(text, query);
    ContainsStep(text, query);
    if text != [] {
      LikeIsContains(text[1..], query);
    }
  }

  // --- ILIKE ------------------------------------------------------------

  function Fold(fold: char -> char, s: string): string {
    seq(|s|, i requires 0 <= i < |s| => fold(s[i]))
  }

  /** ILIKE folds the case of both sides and then matches. */
  predicate ILike(fold: char -> char, text: string, pattern: string) {
    Like(Fold(fold, text), Fold(fold, pattern))
  }

  /** Case folding maps no letter to a wildcard and leaves wildcards alone. */
  ghost predicate KeepsWildcards(fold: char -> char) {
    forall c :: (IsWild(c) ==> fold(c) == c) && (IsWild(fold(c)) ==> IsWild(c))
  }

  lemma FoldConcat(fold: char -> char, a: string, b: string)
    ensures Fold(fold, a + b) == Fold(fold, a) + Fold(fold, b)
  {
  }

  lemma FoldEscapeChar(fold: char -> char, c: char)
    requires KeepsWildcards(fold)
    ensures Fold(fold, EscapeChar(c)) == EscapeChar(fold(c))
  {
    assert IsWild(ESCAPE) && fold(ESCAPE) == ESCAPE;
  }

  lemma {:induction false} FoldEscape(fold: char -> char, value: string)
    requires KeepsWildcards(fold)
    ensures Fold(fold, EscapeEach(value)) == EscapeEach(Fold(fold, value))
  {
    if value != [] {
      FoldEscape(fold, value[1..]);
      assert Fold(fold, value)[1..] == Fold(fold, value[1..]);
      FoldEscapeChar(fold, value[0]);
      FoldConcat(fold, EscapeChar(value[0]), EscapeEach(value[1..]));
    }
  }

  lemma ILikeIsContains(fold: char -> char, text: string, query: string)
    requires KeepsWildcards(fold)
    ensures ILike(fold, text, "%" + EscapeLikeWildcards(query) + "%") <==> Contains(Fold(fold, text), Fold(fold, query))
  {
    PassesEscapeEach(query);
    PassesEscapeEach(Fold(fold, query));
    FoldEscape(fold, query);
    LikeIsContains(Fold(fold, text), Fold(fold, query));
    assert Fold(fold, "%" + EscapeEach(query) + "%") == "%" + Fold(fold, EscapeEach(query)) + "%" by {
      assert fold('%') == '%' by { assert IsWild('%'); }
    }
  }
}
