/** Python's notion of white space, as used by `str.strip` and by `\s` in `re`. */
module Text {

  predicate IsSpace(c: char) {
    || '\t' <= c <= '\r'
    || '\U{1C}' <= c <= ' '
    || c == '\U{85}' || c == '\U{A0}' || c == '\U{1680}'
    || '\U{2000}' <= c <= '\U{200A}'
    || c == '\U{2028}' || c == '\U{2029}' || c == '\U{202F}' || c == '\U{205F}' || c == '\U{3000}'
  }

  function LStrip(s: string): (r: string)
    ensures |r| <= |s| && r == s[|s| - |r|..]
    ensures r != [] ==> !IsSpace(r[0])
    ensures forall i :: 0 <= i < |s| - |r| ==> IsSpace(s[i])
  {
    if s != [] && IsSpace(s[0]) then LStrip(s[1..]) else s
  }

  function RStrip(s: string): (r: string)
    ensures |r| <= |s| && r == s[..|r|]
    ensures r != [] ==> !IsSpace(r[|r| - 1])
    ensures forall i :: |r| <= i < |s| ==> IsSpace(s[i])
  {
    if s != [] && IsSpace(s[|s| - 1]) then RStrip(s[..|s| - 1]) else s
  }

  function Strip(s: string): string {
    RStrip(LStrip(s))
  }

  predicate Blank(s: string) {
    forall i :: 0 <= i < |s| ==> IsSpace(s[i])
  }

  /** No white space at either end. */
  predicate Bare(s: string) {
    s != [] ==> !IsSpace(s[0]) && !IsSpace(s[|s| - 1])
  }

  predicate Around(s: string, before: string, inner: string, after: string) {
    s == before + inner + after && Blank(before) && Blank(after)
  }

  lemma SuffixSplits(s: string, r: string)
    requires |r| <= |s| && r == s[|s| - |r|..] && forall i :: 0 <= i < |s| - |r| ==> IsSpace(s[i])
    ensures Blank(s[..|s| - |r|]) && s == s[..|s| - |r|] + r
  {
  }

  lemma PrefixSplits(s: string, r: string)
    requires |r| <= |s| && r == s[..|r|] && forall i :: |r| <= i < |s| ==> IsSpace(s[i])
    ensures Blank(s[|r|..]) && s == r + s[|r|..]
  {
  }

  lemma PartsAround(s: string, before: string, l: string, r: string, after: string)
    requires s == before + l && l == r + after && Blank(before) && Blank(after)
    requires l != [] ==> !IsSpace(l[0])
    requires r != [] ==> !IsSpace(r[|r| - 1])
    ensures Around(s, before, r, after) && Bare(r)
  {
  }

  lemma StripSplits(s: string) returns (before: string, after: string)
    ensures Around(s, before, Strip(s), after) && Bare(Strip(s))
  {
    var l, r := LStrip(s), Strip(s);
    assert r == RStrip(l);
    before, after := s[..|s| - |l|], l[|r|..];
    SuffixSplits(s, l);
    PrefixSplits(l, r);
    PartsAround(s, before, l, r, after);
  }

  lemma BlankInner(s: string, a: string, x: string, b: string)
    requires Around(s, a, x, b) && Bare(x)
    ensures x == [] <==> Blank(s)
  {
    if x != [] {
      assert s[|a|] == x[0];
    }
  }

  lemma BlankOutside(s: string, a: string, x: string, b: string)
    requires Around(s, a, x, b)
    ensures forall i :: 0 <= i < |a| || |a| + |x| <= i < |s| ==> IsSpace(s[i])
  {
    assert forall i :: |a| + |x| <= i < |s| ==> s[i] == b[i - |a| - |x|];
  }

  /** What has no white space at its ends is where it is. */
  lemma SameInner(s: string, a: string, x: string, b: string, c: string, y: string, d: string)
    requires Around(s, a, x, b) && Around(s, c, y, d) && Bare(x) && Bare(y)
    ensures x == y
  {
    BlankInner(s, a, x, b);
    BlankInner(s, c, y, d);
    if x != [] {
      BlankOutside(s, a, x, b);
      BlankOutside(s, c, y, d);
      var i, j := |a| + |x|, |c| + |y|;
      assert s[|a|] == x[0] && s[|c|] == y[0];
      assert s[i - 1] == x[|x| - 1] && s[j - 1] == y[|y| - 1];
      assert x == s[|a|..i] && y == s[|c|..j];
    }
  }

  /** Stripping takes away exactly the white space around a text. */
  lemma StripIs(s: string, r: string)
    ensures Strip(s) == r <==> Bare(r) && exists a, b :: Around(s, a, r, b)
  {
    var before, after := StripSplits(s);
    if a, b :| Bare(r) && Around(s, a, r, b) {
      SameInner(s, a, r, b, before, Strip(s), after);
    }
  }

  /** Nothing is left of white space, and of nothing else. */
  lemma StripBlank(s: string)
    ensures Strip(s) == [] <==> Blank(s)
  {
    if Blank(s) {
      assert Around(s, s, [], []);
      StripIs(s, []);
    } else {
      var before, after := StripSplits(s);
    }
  }
}
