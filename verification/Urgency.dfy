/**
 The urgency marker: negated mentions are replaced by a blank in one regular-expression pass,
 and the word is then searched for in what is left.
 */
module Urgency {
  import opened Wrappers
  import opened Text
  import opened Substitution

  const NE := "не"
  const SROCHNO := "срочно"

  /** `\w`. Letters are word characters and white space is not. */
  ghost predicate WordClass(word: char -> bool) {
    && (forall c :: IsSpace(c) ==> !word(c))
    && (forall i :: 0 <= i < |NE| ==> word(NE[i]))
    && (forall i :: 0 <= i < |SROCHNO| ==> word(SROCHNO[i]))
  }

  predicate AllSpace(s: string, i: int, j: int) {
    0 <= i <= j <= |s| && forall k :: i <= k < j ==> IsSpace(s[k])
  }

  predicate NoSpace(s: string, i: int, j: int) {
    0 <= i <= j <= |s| && forall k :: i <= k < j ==> !IsSpace(s[k])
  }

  function SkipSpace(s: string, i: nat): (j: nat)
    requires i <= |s|
    ensures i <= j && AllSpace(s, i, j) && (j < |s| ==> !IsSpace(s[j]))
    decreases |s| - i
  {
    if i < |s| && IsSpace(s[i]) then SkipSpace(s, i + 1) else i
  }

  function SkipWord(s: string, i: nat): (j: nat)
    requires i <= |s|
    ensures i <= j && NoSpace(s, i, j) && (j < |s| ==> IsSpace(s[j]))
    decreases |s| - i
  {
    if i < |s| && !IsSpace(s[i]) then SkipWord(s, i + 1) else i
  }

  // --- The pattern ------------------------------------------------------

  /** `не` at `i`, blanks up to `a`, then `at` directly, or one run of non-blanks up to `b` and more
      blanks before it. */
  predicate Between(s: string, i: int, a: int, b: int, at: int, group: bool) {
    && i + |NE| < a && AllSpace(s, i + |NE|, a)
    && if group then a < b < at && NoSpace(s, a, b) && AllSpace(s, b, at) else a == at
  }

  /** `\bне\s+(?:\S+\s+)?срочно\b` at `i`, its last word starting at `at`; `group` says whether the
      optional word is there. */
  ghost predicate Negates(word: char -> bool, s: string, i: int, at: int, group: bool) {
    && Boundary(word, s, i) && StartsAt(s, i, NE)
    && StartsAt(s, at, SROCHNO) && Boundary(word, s, at + |SROCHNO|)
    && exists a, b :: Between(s, i, a, b, at, group)
  }

  /** Where the engine's match at `i` ends: greedy runs, the optional word first, then without it. */
  function NegatedEnd(word: char -> bool, s: string, i: nat): (end: Option<nat>)
    ensures end.Some? ==> i < end.value <= |s|
  {
    if !(Boundary(word, s, i) && StartsAt(s, i, NE)) then None
    else
      var a := SkipSpace(s, i + |NE|);
      var b := SkipWord(s, a);
      var c := SkipSpace(s, b);
      if a == i + |NE| then None
      else if a < b < c && StartsAt(s, c, SROCHNO) && Boundary(word, s, c + |SROCHNO|) then Some(c + |SROCHNO|)
      else if StartsAt(s, a, SROCHNO) && Boundary(word, s, a + |SROCHNO|) then Some(a + |SROCHNO|)
      else None
  }

  /** The runs cannot be split in any other way than greedily. */
  lemma GreedyIsForced(s: string, i: nat, a: int, b: int, at: int, group: bool)
    requires StartsAt(s, i, NE) && StartsAt(s, at, SROCHNO) && Between(s, i, a, b, at, group)
    ensures a == SkipSpace(s, i + |NE|)
    ensures group ==> b == SkipWord(s, a) && at == SkipSpace(s, b)
  {
    assert s[at] == SROCHNO[0] by { assert s[at..at + |SROCHNO|][0] == s[at]; }
    if group {
      assert !IsSpace(s[a]) && IsSpace(s[b]);
    }
  }

  /** No backtracking can help: the engine finds a match exactly where there is one, and prefers the
      one with the optional word. */
  lemma NegatedEndIsTheMatch(word: char -> bool, s: string, i: nat, at: int, group: bool)
    requires Negates(word, s, i, at, group)
    ensures NegatedEnd(word, s, i).Some?
    ensures group ==> NegatedEnd(word, s, i) == Some(at + |SROCHNO|)
  {
    var a, b :| Between(s, i, a, b, at, group);
    GreedyIsForced(s, i, a, b, at, group);
  }

  lemma NegatedEndIsAMatch(word: char -> bool, s: string, i: nat) returns (at: int, group: bool)
    requires NegatedEnd(word, s, i).Some?
    ensures Negates(word, s, i, at, group) && NegatedEnd(word, s, i) == Some(at + |SROCHNO|)
  {
    var a := SkipSpace(s, i + |NE|);
    var b := SkipWord(s, a);
    var c := SkipSpace(s, b);
    group := a < b < c && StartsAt(s, c, SROCHNO) && Boundary(word, s, c + |SROCHNO|);
    at := if group then c else a;
    assert Between(s, i, a, b, at, group);
  }

  // --- The marker -------------------------------------------------------

  function Negation(word: char -> bool, s: string): Matcher {
    (i: nat) => NegatedEnd(word, s, i)
  }

  /** A negated mention begins and ends at a word boundary, with a letter on its inside. */
  lemma NegationEdged(word: char -> bool, s: string)
    requires WordClass(word)
    ensures Edged(word, Negation(word, s), s)
  {
    assert IsSpace(' ');
    forall i: nat, j: nat | IsSpan(Negation(word, s), i, j)
      ensures i < j <= |s| && (0 < i ==> !word(s[i - 1])) && (j < |s| ==> !word(s[j]))
    {
      var at, group := NegatedEndIsAMatch(word, s, i);
      assert s[i..i + |NE|][0] == s[i] && s[at..at + |SROCHNO|][|SROCHNO| - 1] == s[j - 1];
    }
  }

  /** Inside a mention of "срочно" that is negated. */
  ghost predicate Negated(word: char -> bool, s: string, q: nat)
    requires WordClass(word)
  {
    NegationEdged(word, s);
    Covered(Trace(Negation(word, s), s, 0), q)
  }

  /** The marker check: substitute, then search. */
  ghost predicate HasSrochno(word: char -> bool, s: string)
    requires WordClass(word)
  {
    NegationEdged(word, s);
    Found(word, Substitute(Negation(word, s), s, 0), SROCHNO)
  }

  /** "срочно" stands at `q` with no word character directly before or after it. */
  predicate SrochnoAt(word: char -> bool, s: string, q: nat) {
    && q + 6 <= |s| && s[q..q + 6] == "срочно"
    && (q == 0 || !word(s[q - 1])) && (q + 6 == |s| || !word(s[q + 6]))
  }

  lemma SrochnoAtIs(word: char -> bool, s: string, q: nat)
    requires WordClass(word)
    ensures WholeAt(word, s, q, SROCHNO) <==> SrochnoAt(word, s, q)
  {
    WholeAtIs(word, s, q, SROCHNO);
  }

  /** The marker is set exactly if the text has a whole-word "срочно" outside every negated mention. */
  lemma SrochnoOutsideNegations(word: char -> bool, s: string)
    requires WordClass(word)
    ensures HasSrochno(word, s) <==> exists q: nat :: q < |s| && WholeAt(word, s, q, SROCHNO) && !Negated(word, s, q)
  {
    NegationEdged(word, s);
    FoundOutsideSpans(word, Negation(word, s), s, SROCHNO);
  }

  /** The same without the helpers: some "срочно" with no word character next to it is not negated. */
  lemma SrochnoExactlyWhen(word: char -> bool, s: string)
    requires WordClass(word)
    ensures HasSrochno(word, s) <==> exists q: nat :: q < |s| && SrochnoAt(word, s, q) && !Negated(word, s, q)
  {
    SrochnoOutsideNegations(word, s);
    forall q: nat ensures WholeAt(word, s, q, SROCHNO) <==> SrochnoAt(word, s, q) {
      SrochnoAtIs(word, s, q);
    }
  }

  // --- All markers ------------------------------------------------------

  /** The words of a phrase one after another from `i`, with white space between them: where they end. */
  function WordsFrom(s: string, i: nat, words: seq<string>): Option<nat>
    decreases |words|
  {
    if words == [] || !StartsAt(s, i, words[0]) then None
    else
      var end := i + |words[0]|;
      if |words| == 1 then Some(end)
      else if SkipSpace(s, end) == end then None
      else WordsFrom(s, SkipSpace(s, end), words[1..])
  }

  /** The words of a phrase stand one after another from `i` to `j`, with some white space and nothing else
      between them. */
  ghost predicate Spells(s: string, i: int, j: int, words: seq<string>)
    decreases |words|
  {
    && words != [] && StartsAt(s, i, words[0])
    && if |words| == 1 then j == i + |words[0]|
       else exists next :: Gap(s, i + |words[0]|, next) && Spells(s, next, j, words[1..])
  }

  predicate Gap(s: string, i: int, j: int) {
    i < j && AllSpace(s, i, j)
  }

  /** No word is empty or begins with white space. */
  predicate PlainWords(words: seq<string>) {
    forall i :: 0 <= i < |words| ==> words[i] != [] && !IsSpace(words[i][0])
  }

  lemma {:induction false} WordsFromSpells(s: string, i: nat, j: nat, words: seq<string>)
    requires WordsFrom(s, i, words) == Some(j)
    ensures Spells(s, i, j, words)
    decreases |words|
  {
    if |words| > 1 {
      var end := i + |words[0]|;
      assert Gap(s, end, SkipSpace(s, end));
      WordsFromSpells(s, SkipSpace(s, end), j, words[1..]);
    }
  }

  /** White space before something else ends where skipping it ends. */
  lemma GapIsSkipped(s: string, i: nat, j: nat)
    requires Gap(s, i, j) && j < |s| && !IsSpace(s[j])
    ensures SkipSpace(s, i) == j
  {
  }

  lemma {:induction false} SpellsWordsFrom(s: string, i: nat, j: int, words: seq<string>)
    requires PlainWords(words) && Spells(s, i, j, words)
    ensures j >= 0 && WordsFrom(s, i, words) == Some(j)
    decreases |words|
  {
    if |words| > 1 {
      var end := i + |words[0]|;
      var next :| Gap(s, end, next) && Spells(s, next, j, words[1..]);
      assert s[next..next + |words[1]|][0] == s[next];
      GapIsSkipped(s, end, next);
      SpellsWordsFrom(s, next, j, words[1..]);
    }
  }

  /** A phrase is found exactly where its words stand one after another, separated by white space, with a
      word boundary at both ends. */
  lemma PhraseAtIs(word: char -> bool, s: string, i: nat, words: seq<string>)
    requires PlainWords(words)
    ensures PhraseAt(word, s, i, words)
       <==> exists j :: Spells(s, i, j, words) && Boundary(word, s, i) && Boundary(word, s, j)
  {
    if WordsFrom(s, i, words).Some? {
      WordsFromSpells(s, i, WordsFrom(s, i, words).value, words);
    }
    if j :| Spells(s, i, j, words) && Boundary(word, s, i) && Boundary(word, s, j) {
      SpellsWordsFrom(s, i, j, words);
    }
  }

  /** That goes for all phrases there are. */
  lemma PhrasesArePlain()
    ensures forall words :: words in PHRASES ==> PlainWords(words)
  {
    assert forall i :: 0 <= i < |PHRASES| ==> PlainWords(PHRASES[i]);
  }

  predicate PhraseAt(word: char -> bool, s: string, i: nat, words: seq<string>) {
    Boundary(word, s, i) && WordsFrom(s, i, words).Some? && Boundary(word, s, WordsFrom(s, i, words).value)
  }

  predicate PhraseFound(word: char -> bool, s: string, words: seq<string>) {
    exists i :: 0 <= i < |s| && PhraseAt(word, s, i, words)
  }

  const PRE_SALE := ["перед", "продажей"]

  const PHRASES: seq<seq<string>> :=
    [["как", "можно", "скорее"], ["сегодня"], ["завтра"], ["авария"], ["не", "заводится"], ["эвакуатор"], PRE_SALE,
     ["перед", "поездкой"]]

  const PRE_SALE_TASK := "подготовка к продаже"
  const URGENCY_POINTS := 10

  /** The markers in a text: the phrases found as they stand, and "срочно" if it is found outside every
      negated mention. */
  ghost predicate IsMarker(word: char -> bool, s: string, marker: seq<string>)
    requires WordClass(word)
  {
    (marker in PHRASES && PhraseFound(word, s, marker)) || (marker == [SROCHNO] && HasSrochno(word, s))
  }

  method MatchedUrgencyMarkers(word: char -> bool, combined: string) returns (matched: set<seq<string>>)
    requires WordClass(word)
    ensures forall m :: m in matched <==> IsMarker(word, combined, m)
  {
    matched := set p | p in PHRASES && PhraseFound(word, combined, p);
    NegationEdged(word, combined);
    var rest := Substitute(Negation(word, combined), combined, 0);
    if Found(word, rest, SROCHNO) {
      matched := matched + {[SROCHNO]};
    }
  }

  /** The texts, normalized and joined by blanks. */
  function Combined(normalize: string -> string, businessInfo: string, needScope: string, comment: string): string {
    normalize(businessInfo) + " " + normalize(needScope) + " " + normalize(comment)
  }

  /** A marker whose points its task type has not already earned. */
  ghost predicate Counts(word: char -> bool, s: string, preSaleTask: bool, marker: seq<string>)
    requires WordClass(word)
  {
    IsMarker(word, s, marker) && !(preSaleTask && marker == PRE_SALE)
  }

  /** Some other phrase is there, or a "срочно" outside every negated mention. */
  ghost predicate Urgent(word: char -> bool, s: string, preSaleTask: bool)
    requires WordClass(word)
  {
    || (exists p :: p in PHRASES && PhraseFound(word, s, p) && !(preSaleTask && p == PRE_SALE))
    || (exists q: nat :: q < |s| && WholeAt(word, s, q, SROCHNO) && !Negated(word, s, q))
  }

  lemma UrgentExactlyWhenCounted(word: char -> bool, s: string, preSaleTask: bool)
    requires WordClass(word)
    ensures Urgent(word, s, preSaleTask) <==> exists m :: Counts(word, s, preSaleTask, m)
  {
    SrochnoOutsideNegations(word, s);
    assert |PRE_SALE| == 2;
    if HasSrochno(word, s) {
      assert Counts(word, s, preSaleTask, [SROCHNO]);
    }
    if p :| p in PHRASES && PhraseFound(word, s, p) && !(preSaleTask && p == PRE_SALE) {
      assert Counts(word, s, preSaleTask, p);
    }
  }

  /** Points are given exactly if the text has a marker that counts: "перед продажей" does not for a
      pre-sale task, and a negated "срочно" never does. `normalize` maps a missing comment to nothing. */
  method UrgencyMarkerReason(word: char -> bool, normalize: string -> string,
                             businessInfo: string, needScope: string, comment: string, taskType: string)
    returns (points: Option<nat>)
    requires WordClass(word)
    ensures var text := normalize(businessInfo) + " " + normalize(needScope) + " " + normalize(comment);
            points == if Urgent(word, text, normalize(taskType) == "подготовка к продаже") then Some(10) else None
  {
    var combined := Combined(normalize, businessInfo, needScope, comment);
    var preSaleTask := normalize(taskType) == PRE_SALE_TASK;
    var matched := MatchedUrgencyMarkers(word, combined);
    UrgentExactlyWhenCounted(word, combined, preSaleTask);
    if preSaleTask {
      matched := matched - {PRE_SALE};
    }
    assert forall m :: m in matched <==> Counts(word, combined, preSaleTask, m);
    if matched == {} {
      return None;
    }
    var m :| m in matched;
    assert Counts(word, combined, preSaleTask, m);
    return Some(URGENCY_POINTS);
  }
}
