/**
 One `re.sub` pass that replaces spans by a blank, and what it does to the whole words outside
 them. `m(i)` is where the match starting at `i` ends, if there is one.
 */
module Substitution {
  import opened Wrappers

  type Matcher = nat -> Option<nat>

  // --- Words ------------------------------------------------------------

  /** `\b`, for the word characters `word`. */
  predicate Boundary(word: char -> bool, s: string, i: int) {
    (0 < i <= |s| && word(s[i - 1])) != (0 <= i < |s| && word(s[i]))
  }

  predicate StartsAt(s: string, i: int, w: string) {
    0 <= i && i + |w| <= |s| && s[i..i + |w|] == w
  }

  /** `\bw\b` at `i`. */
  predicate WholeAt(word: char -> bool, s: string, i: int, w: string) {
    StartsAt(s, i, w) && Boundary(word, s, i) && Boundary(word, s, i + |w|)
  }

  /** The word stands there, and no word character stands directly before or after it. */
  lemma WholeAtIs(word: char -> bool, s: string, i: int, w: string)
    requires AllWord(word, w)
    ensures WholeAt(word, s, i, w)
       <==> && 0 <= i && i + |w| <= |s| && s[i..i + |w|] == w
            && (i == 0 || !word(s[i - 1])) && (i + |w| == |s| || !word(s[i + |w|]))
  {
    if StartsAt(s, i, w) {
      assert s[i] == w[0] && s[i + |w| - 1] == w[|w| - 1];
    }
  }

  predicate Found(word: char -> bool, s: string, w: string) {
    exists q :: 0 <= q < |s| && WholeAt(word, s, q, w)
  }

  predicate IsSpan(m: Matcher, i: nat, j: nat) {
    m(i) == Some(j)
  }

  /** Matches are not empty and lie in the text. */
  ghost predicate Forward(m: Matcher, s: string) {
    forall i: nat, j: nat {:trigger IsSpan(m, i, j)} :: IsSpan(m, i, j) ==> i < j <= |s|
  }

  /** Next to a match there is no word character, and a blank is none. */
  ghost predicate Edged(word: char -> bool, m: Matcher, s: string) {
    && Forward(m, s) && !word(' ')
    && forall i: nat, j: nat {:trigger IsSpan(m, i, j)} :: IsSpan(m, i, j) ==>
         (0 < i ==> !word(s[i - 1])) && (j < |s| ==> !word(s[j]))
  }

  predicate AllWord(word: char -> bool, w: string) {
    w != [] && forall i :: 0 <= i < |w| ==> word(w[i])
  }

  // --- The pass ---------------------------------------------------------

  /** Leftmost, non-overlapping, left to right. */
  function Substitute(m: Matcher, s: string, pos: nat): string
    requires Forward(m, s) && pos <= |s|
    decreases |s| - pos
  {
    if pos == |s| then []
    else match m(pos)
         case Some(j) =>
           assert IsSpan(m, pos, j);
           [' '] + Substitute(m, s, j)
         case None => [s[pos]] + Substitute(m, s, pos + 1)
  }

  /** Where each character of the result comes from. */
  datatype Piece = Keep(q: nat) | Blank(from_: nat, to: nat)

  function Trace(m: Matcher, s: string, pos: nat): seq<Piece>
    requires Forward(m, s) && pos <= |s|
    decreases |s| - pos
  {
    if pos == |s| then []
    else match m(pos)
         case Some(j) =>
           assert IsSpan(m, pos, j);
           [Blank(pos, j)] + Trace(m, s, j)
         case None => [Keep(pos)] + Trace(m, s, pos + 1)
  }

  /** `c` in the result comes from `piece` of the text. */
  predicate Renders(m: Matcher, s: string, pos: nat, piece: Piece, c: char) {
    match piece
    case Keep(q) => pos <= q < |s| && c == s[q]
    case Blank(i, j) => pos <= i < j <= |s| && IsSpan(m, i, j) && c == ' '
  }

  ghost predicate AllRender(m: Matcher, s: string, pos: nat, tr: seq<Piece>, out: string) {
    |out| == |tr| && forall p :: 0 <= p < |tr| ==> Renders(m, s, pos, tr[p], out[p])
  }

  lemma RenderOneMore(m: Matcher, s: string, pos: nat, next: nat, piece: Piece, c: char, tr: seq<Piece>, out: string)
    requires pos <= next && Renders(m, s, pos, piece, c) && AllRender(m, s, next, tr, out)
    ensures AllRender(m, s, pos, [piece] + tr, [c] + out)
  {
    forall p | 0 < p <= |tr|
      ensures Renders(m, s, pos, ([piece] + tr)[p], ([c] + out)[p])
    {
      assert Renders(m, s, next, tr[p - 1], out[p - 1]);
    }
  }

  /** The whole output is accounted for: kept characters in order, one blank per replaced span. */
  lemma {:induction false} TraceRenders(m: Matcher, s: string, pos: nat)
    requires Forward(m, s) && pos <= |s|
    ensures AllRender(m, s, pos, Trace(m, s, pos), Substitute(m, s, pos))
    decreases |s| - pos
  {
    if pos < |s| {
      match m(pos) {
        case Some(j) =>
          assert IsSpan(m, pos, j);
          TraceRenders(m, s, j);
          RenderOneMore(m, s, pos, j, Blank(pos, j), ' ', Trace(m, s, j), Substitute(m, s, j));
        case None =>
          TraceRenders(m, s, pos + 1);
          RenderOneMore(m, s, pos, pos + 1, Keep(pos), s[pos], Trace(m, s, pos + 1), Substitute(m, s, pos + 1));
      }
    }
  }

  /** Neighbours in the result are neighbours in the text, up to replaced spans. */
  lemma {:induction false} TraceAdjacent(m: Matcher, s: string, pos: nat)
    requires Forward(m, s) && pos <= |s|
    ensures var tr := Trace(m, s, pos);
            && (pos < |s| ==> tr != [] && (tr[0] == Keep(pos) || (tr[0].Blank? && tr[0].from_ == pos)))
            && (forall p :: 0 <= p < |tr| - 1 ==> End(tr[p]) == Begin(tr[p + 1]))
            && (tr != [] ==> End(tr[|tr| - 1]) == |s|)
    decreases |s| - pos
  {
    if pos < |s| {
      match m(pos) {
        case Some(j) =>
          assert IsSpan(m, pos, j);
          TraceAdjacent(m, s, j);
        case None => TraceAdjacent(m, s, pos + 1);
      }
    }
  }

  function Begin(p: Piece): nat {
    match p case Keep(q) => q case Blank(i, _) => i
  }

  function End(p: Piece): nat {
    match p case Keep(q) => q + 1 case Blank(_, j) => j
  }

  /** A word character that is kept has its own neighbours: no span starts after or ends before it. */
  lemma WordNeighbours(word: char -> bool, m: Matcher, s: string, p: nat)
    requires Edged(word, m, s)
    requires var tr := Trace(m, s, 0); p < |tr| && tr[p].Keep? && tr[p].q < |s| && word(s[tr[p].q])
    ensures var tr := Trace(m, s, 0); var q := tr[p].q;
            && (if p == 0 then q == 0 else q > 0 && tr[p - 1] == Keep(q - 1))
            && (if p + 1 == |tr| then q + 1 == |s| else tr[p + 1] == Keep(q + 1))
  {
    var tr := Trace(m, s, 0);
    TraceAdjacent(m, s, 0);
    TraceRenders(m, s, 0);
    var q := tr[p].q;
    if p > 0 {
      assert Renders(m, s, 0, tr[p - 1], Substitute(m, s, 0)[p - 1]);
      assert End(tr[p - 1]) == Begin(tr[p - 1 + 1]);
    }
    if p + 1 < |tr| {
      assert Renders(m, s, 0, tr[p + 1], Substitute(m, s, 0)[p + 1]);
      assert End(tr[p]) == Begin(tr[p + 1]);
    }
  }

  ghost predicate KeptRun(tr: seq<Piece>, p: nat, q: nat, n: nat) {
    p + n <= |tr| && forall x :: p <= x < p + n ==> tr[x] == Keep(q + (x - p))
  }

  /** A run of word characters of the text is kept as a whole ... */
  lemma {:induction false} TextRunKept(word: char -> bool, m: Matcher, s: string, p: nat, q: nat, n: nat)
    requires Edged(word, m, s) && n > 0
    requires p < |Trace(m, s, 0)| && Trace(m, s, 0)[p] == Keep(q)
    requires q + n <= |s| && forall k :: q <= k < q + n ==> word(s[k])
    ensures KeptRun(Trace(m, s, 0), p, q, n)
  {
    if n > 1 {
      TextRunKept(word, m, s, p, q, n - 1);
      assert Trace(m, s, 0)[p + n - 2] == Keep(q + (n - 2));
      WordNeighbours(word, m, s, p + n - 2);
    }
  }

  /** ... and a run of word characters of the result was one in the text. */
  lemma {:induction false} ResultRunKept(word: char -> bool, m: Matcher, s: string, p: nat, q: nat, n: nat)
    requires Edged(word, m, s) && n > 0
    requires p < |Trace(m, s, 0)| && Trace(m, s, 0)[p] == Keep(q)
    requires p + n <= |Substitute(m, s, 0)| && forall k :: p <= k < p + n ==> word(Substitute(m, s, 0)[k])
    ensures KeptRun(Trace(m, s, 0), p, q, n)
  {
    TraceRenders(m, s, 0);
    if n > 1 {
      ResultRunKept(word, m, s, p, q, n - 1);
      assert Trace(m, s, 0)[p + n - 2] == Keep(q + (n - 2));
      assert Renders(m, s, 0, Trace(m, s, 0)[p + n - 2], Substitute(m, s, 0)[p + n - 2]);
      WordNeighbours(word, m, s, p + n - 2);
    }
  }

  lemma KeptRunText(m: Matcher, s: string, p: nat, q: nat, n: nat)
    requires Forward(m, s) && KeptRun(Trace(m, s, 0), p, q, n)
    ensures n > 0 ==> p + n <= |Substitute(m, s, 0)| && q + n <= |s|
    ensures n > 0 ==> Substitute(m, s, 0)[p..p + n] == s[q..q + n]
  {
    var out, tr := Substitute(m, s, 0), Trace(m, s, 0);
    TraceRenders(m, s, 0);
    if n > 0 {
      assert tr[p + n - 1] == Keep(q + n - 1) && Renders(m, s, 0, tr[p + n - 1], out[p + n - 1]);
      forall x | p <= x < p + n
        ensures out[x] == s[q + (x - p)]
      {
        assert tr[x] == Keep(q + (x - p)) && Renders(m, s, 0, tr[x], out[x]);
      }
    }
  }

  /** The edges of a kept run of word characters are edges in both. */
  lemma KeptRunEdges(word: char -> bool, m: Matcher, s: string, p: nat, q: nat, n: nat)
    requires Edged(word, m, s) && n > 0 && KeptRun(Trace(m, s, 0), p, q, n)
    requires q + n <= |s| && word(s[q]) && word(s[q + n - 1])
    ensures p + n <= |Substitute(m, s, 0)|
    ensures Boundary(word, s, q) == Boundary(word, Substitute(m, s, 0), p)
    ensures Boundary(word, s, q + n) == Boundary(word, Substitute(m, s, 0), p + n)
  {
    var out, tr := Substitute(m, s, 0), Trace(m, s, 0);
    TraceRenders(m, s, 0);
    assert tr[p] == Keep(q) && tr[p + n - 1] == Keep(q + n - 1);
    WordNeighbours(word, m, s, p);
    WordNeighbours(word, m, s, p + n - 1);
    assert Renders(m, s, 0, tr[p], out[p]) && Renders(m, s, 0, tr[p + n - 1], out[p + n - 1]);
    if p > 0 {
      assert Renders(m, s, 0, tr[p - 1], out[p - 1]);
    }
    if p + n < |tr| {
      assert Renders(m, s, 0, tr[p + n], out[p + n]);
    }
  }

  /** A kept run reads the same in the text and in the result, and so do its two edges. */
  lemma KeptRunReadsSame(word: char -> bool, m: Matcher, s: string, p: nat, q: nat, w: string)
    requires Edged(word, m, s) && AllWord(word, w)
    requires KeptRun(Trace(m, s, 0), p, q, |w|)
    requires StartsAt(s, q, w) || StartsAt(Substitute(m, s, 0), p, w)
    ensures var out := Substitute(m, s, 0);
            && StartsAt(s, q, w) && StartsAt(out, p, w)
            && Boundary(word, s, q) == Boundary(word, out, p)
            && Boundary(word, s, q + |w|) == Boundary(word, out, p + |w|)
  {
    var n := |w|;
    KeptRunText(m, s, p, q, n);
    assert s[q] == w[0] && s[q + n - 1] == w[n - 1] by {
      assert s[q..q + n][0] == s[q] && s[q..q + n][n - 1] == s[q + n - 1];
    }
    KeptRunEdges(word, m, s, p, q, n);
  }

  /** A kept position holds the whole word after the pass exactly if it did before. */
  lemma WholeWordKept(word: char -> bool, m: Matcher, s: string, p: nat, q: nat, w: string)
    requires Edged(word, m, s) && AllWord(word, w)
    requires p < |Trace(m, s, 0)| && Trace(m, s, 0)[p] == Keep(q)
    ensures WholeAt(word, Substitute(m, s, 0), p, w) <==> WholeAt(word, s, q, w)
  {
    var out, n := Substitute(m, s, 0), |w|;
    if WholeAt(word, s, q, w) {
      assert forall k :: q <= k < q + n ==> s[k] == s[q..q + n][k - q];
      TextRunKept(word, m, s, p, q, n);
      KeptRunReadsSame(word, m, s, p, q, w);
    }
    if WholeAt(word, out, p, w) {
      assert forall k :: p <= k < p + n ==> out[k] == out[p..p + n][k - p];
      ResultRunKept(word, m, s, p, q, n);
      KeptRunReadsSame(word, m, s, p, q, w);
    }
  }

  predicate Covers(piece: Piece, q: nat) {
    piece.Blank? && piece.from_ <= q < piece.to
  }

  predicate Kept(tr: seq<Piece>, q: nat) {
    exists p :: 0 <= p < |tr| && tr[p] == Keep(q)
  }

  predicate Covered(tr: seq<Piece>, q: nat) {
    exists p :: 0 <= p < |tr| && Covers(tr[p], q)
  }

  lemma FirstPiece(x: Piece, rest: seq<Piece>, q: nat)
    ensures Kept([x] + rest, q) <==> x == Keep(q) || Kept(rest, q)
    ensures Covered([x] + rest, q) <==> Covers(x, q) || Covered(rest, q)
  {
    var tr := [x] + rest;
    assert tr[0] == x && forall p :: 0 <= p < |rest| ==> rest[p] == tr[p + 1];
    assert forall p :: 0 < p < |tr| ==> tr[p] == rest[p - 1];
  }

  lemma NothingBefore(m: Matcher, s: string, pos: nat, q: nat)
    requires Forward(m, s) && pos <= |s| && q < pos
    ensures !Kept(Trace(m, s, pos), q) && !Covered(Trace(m, s, pos), q)
  {
    TraceRenders(m, s, pos);
    var tr, out := Trace(m, s, pos), Substitute(m, s, pos);
    forall p | 0 <= p < |tr|
      ensures tr[p] != Keep(q) && !Covers(tr[p], q)
    {
      assert Renders(m, s, pos, tr[p], out[p]);
    }
  }

  /** Every position is either kept or inside a replaced span, and not both. */
  lemma {:induction false} KeptOrCovered(m: Matcher, s: string, pos: nat, q: nat)
    requires Forward(m, s) && pos <= q < |s|
    ensures Kept(Trace(m, s, pos), q) <==> !Covered(Trace(m, s, pos), q)
    decreases |s| - pos
  {
    match m(pos) {
      case Some(j) =>
        assert IsSpan(m, pos, j);
        FirstPiece(Blank(pos, j), Trace(m, s, j), q);
        if q < j {
          NothingBefore(m, s, j, q);
        } else {
          KeptOrCovered(m, s, j, q);
        }
      case None =>
        FirstPiece(Keep(pos), Trace(m, s, pos + 1), q);
        if q == pos {
          NothingBefore(m, s, pos + 1, q);
        } else {
          KeptOrCovered(m, s, pos + 1, q);
        }
    }
  }

  /** The pass neither creates nor loses a whole word: those in the result are exactly those of the
      text that lie outside every replaced span. */
  lemma FoundOutsideSpans(word: char -> bool, m: Matcher, s: string, w: string)
    requires Edged(word, m, s) && AllWord(word, w)
    ensures Found(word, Substitute(m, s, 0), w)
       <==> exists q :: 0 <= q < |s| && WholeAt(word, s, q, w) && !Covered(Trace(m, s, 0), q)
  {
    var out, tr := Substitute(m, s, 0), Trace(m, s, 0);
    TraceRenders(m, s, 0);
    if Found(word, out, w) {
      var p :| 0 <= p < |out| && WholeAt(word, out, p, w);
      assert out[p] == out[p..p + |w|][0] == w[0];
      assert Renders(m, s, 0, tr[p], out[p]);
      var q := tr[p].q;
      WholeWordKept(word, m, s, p, q, w);
      KeptOrCovered(m, s, 0, q);
    }
    forall q | 0 <= q < |s| && WholeAt(word, s, q, w) && !Covered(tr, q)
      ensures Found(word, out, w)
    {
      KeptOrCovered(m, s, 0, q);
      var p :| 0 <= p < |tr| && tr[p] == Keep(q);
      WholeWordKept(word, m, s, p, q, w);
    }
  }
}
