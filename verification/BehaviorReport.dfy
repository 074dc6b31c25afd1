/** The two ranked lists of the analytics report, built from the aggregated dictionaries. */
module BehaviorReport {
  import opened Tallies
  import opened BehaviorExtract
  import opened BehaviorStats
  import Ordering

  datatype ButtonStat = ButtonStat(name: string, count: nat, sharePercent: real)

  datatype SectionStat = SectionStat(
    section: string, totalSeconds: real, averageSeconds: real, interactions: nat, sharePercent: real)

  // --- Buttons ----------------------------------------------------------

  function ButtonItem(e: (string, nat)): Ranked {
    Ranked(e.0, e.1, e.1 as real)
  }

  function ButtonItems(listing: seq<(string, nat)>): seq<Ranked> {
    seq(|listing|, i requires 0 <= i < |listing| => ButtonItem(listing[i]))
  }

  function ButtonStatOf(r: Ranked, totalClicks: nat): ButtonStat {
    ButtonStat(r.name, r.count, Share(r.count as real, totalClicks as real))
  }

  /** `listing` is the dictionary's items in the order the dictionary yields them. */
  function BuildButtonStats(listing: seq<(string, nat)>): seq<ButtonStat> {
    var totalClicks := SumEntries(COUNTS, listing);
    var top := Top(ButtonItems(listing));
    seq(|top|, i requires 0 <= i < |top| => ButtonStatOf(top[i], totalClicks))
  }

  // --- Sections ---------------------------------------------------------

  function SectionItem(e: (string, Activity)): Ranked {
    Ranked(e.0, e.1.hovers, e.1.ms / 1000.0)
  }

  function SectionItems(listing: seq<(string, Activity)>): seq<Ranked> {
    seq(|listing|, i requires 0 <= i < |listing| => SectionItem(listing[i]))
  }

  function SectionStatOf(r: Ranked, totalSeconds: real): SectionStat {
    SectionStat(r.name, Round2(r.weight), if r.count > 0 then Round2(r.weight / r.count as real) else 0.0, r.count,
                Share(r.weight, totalSeconds))
  }

  function SectionStats(listing: seq<(string, Activity)>): seq<SectionStat> {
    var totalSeconds := SumEntries(SECTIONS, listing).ms / 1000.0;
    var top := Top(SectionItems(listing));
    seq(|top|, i requires 0 <= i < |top| => SectionStatOf(top[i], totalSeconds))
  }

  method BuildSectionStats(listing: seq<(string, Activity)>) returns (stats: seq<SectionStat>)
    ensures stats == SectionStats(listing)
  {
    var totalSeconds := SumEntries(SECTIONS, listing).ms / 1000.0;
    var top := Top(SectionItems(listing));
    stats := [];
    var n := 0;
    while n < |top|
      invariant 0 <= n <= |top|
      invariant stats == seq(n, i requires 0 <= i < n => SectionStatOf(top[i], totalSeconds))
    {
      var r := top[n];
      var average := if r.count > 0 then Round2(r.weight / r.count as real) else 0.0;
      var share := if totalSeconds > 0.0 then Round2(r.weight / totalSeconds * 100.0) else 0.0;
      stats := stats + [SectionStat(r.name, Round2(r.weight), average, r.count, share)];
      n := n + 1;
    }
  }

  // --- The total the shares are taken of --------------------------------

  lemma {:induction false} ButtonWeights(listing: seq<(string, nat)>)
    ensures SumWeights(ButtonItems(listing)) == SumEntries(COUNTS, listing) as real
    ensures NonNegative(ButtonItems(listing))
    decreases |listing|
  {
    if listing != [] {
      var init, last := listing[..|listing| - 1], listing[|listing| - 1];
      ButtonWeights(init);
      assert ButtonItems(listing) == ButtonItems(init) + [ButtonItem(last)];
      SumWeightsEnd(ButtonItems(init), ButtonItem(last));
    }
  }

  lemma {:induction false} SectionWeights(listing: seq<(string, Activity)>)
    ensures SumWeights(SectionItems(listing)) == SumEntries(SECTIONS, listing).ms / 1000.0
    decreases |listing|
  {
    if listing != [] {
      var init, last := listing[..|listing| - 1], listing[|listing| - 1];
      SectionWeights(init);
      assert SectionItems(listing) == SectionItems(init) + [SectionItem(last)];
      SumWeightsEnd(SectionItems(init), SectionItem(last));
    }
  }

  lemma {:induction false} SumWeightsEnd(s: seq<Ranked>, r: Ranked)
    ensures SumWeights(s + [r]) == SumWeights(s) + r.weight
  {
    if s == [] {
      assert s + [r] == [r];
    } else {
      SumWeightsEnd(s[1..], r);
      assert (s + [r])[1..] == s[1..] + [r];
    }
  }

  // --- What the lists show ----------------------------------------------

  function SumButtonShares(stats: seq<ButtonStat>): real {
    if stats == [] then 0.0 else stats[0].sharePercent + SumButtonShares(stats[1..])
  }

  function SumSectionShares(stats: seq<SectionStat>): real {
    if stats == [] then 0.0 else stats[0].sharePercent + SumSectionShares(stats[1..])
  }

  lemma ButtonItemsAreDistinct(counts: map<string, nat>, listing: seq<(string, nat)>)
    requires Lists(listing, counts)
    ensures DistinctNames(ButtonItems(listing))
  {
  }

  /** Every stat shows its button's own count, and no button left out beats one shown. */
  lemma ButtonStatsAreTheTop(counts: map<string, nat>, listing: seq<(string, nat)>, i: nat, other: string)
    requires Lists(listing, counts) && i < |BuildButtonStats(listing)|
    requires other in counts && forall s :: s in BuildButtonStats(listing) ==> s.name != other
    ensures var s := BuildButtonStats(listing)[i];
            s.name in counts && s.count == counts[s.name]
            && (s.count > counts[other] || (s.count == counts[other] && Ordering.StrLe(s.name, other)))
  {
    var items, stats := ButtonItems(listing), BuildButtonStats(listing);
    var k := TopMember(items, i);
    assert (other, counts[other]) in listing;
    var j :| 0 <= j < |listing| && listing[j] == (other, counts[other]);
    var y := ButtonItem(listing[j]);
    assert items[j] == y;
    forall m | 0 <= m < |Top(items)| ensures Top(items)[m] != y {
      assert stats[m] in stats;
    }
    ButtonItemsAreDistinct(counts, listing);
    OmittedIsBeaten(items, i, y);
  }

  /** The stats come with the highest count first, and equal counts by name. */
  lemma ButtonStatsInOrder(counts: map<string, nat>, listing: seq<(string, nat)>, i: nat, j: nat)
    requires Lists(listing, counts) && i < j < |BuildButtonStats(listing)|
    ensures var s, t := BuildButtonStats(listing)[i], BuildButtonStats(listing)[j];
            s.count > t.count || (s.count == t.count && Ordering.StrLe(s.name, t.name))
  {
    var items := ButtonItems(listing);
    ButtonItemsAreDistinct(counts, listing);
    TopInOrder(items);
    var a := TopMember(items, i);
    var b := TopMember(items, j);
    assert RankLe(Top(items)[i], Top(items)[j]);
  }

  lemma ButtonShareIs(listing: seq<(string, nat)>, i: nat)
    requires i < |Top(ButtonItems(listing))|
    ensures BuildButtonStats(listing)[i].sharePercent
            == Share(Top(ButtonItems(listing))[i].weight, SumWeights(ButtonItems(listing)))
    ensures Top(ButtonItems(listing))[i].weight == BuildButtonStats(listing)[i].count as real
  {
    ButtonWeights(listing);
    var k := TopMember(ButtonItems(listing), i);
  }

  /** Each share is in 0..100 and within 0.005 of the exact percentage. */
  lemma ButtonShareClose(listing: seq<(string, nat)>, i: nat)
    requires i < |BuildButtonStats(listing)| && SumEntries(COUNTS, listing) > 0
    ensures var s := BuildButtonStats(listing)[i];
            InPercent(s.sharePercent, s.count as real, SumEntries(COUNTS, listing) as real)
  {
    ButtonWeights(listing);
    ButtonShareIs(listing, i);
    TopShareAt(ButtonItems(listing), i);
  }

  /** min(10, n) stats, whose shares together come to at most 100.05. */
  lemma ButtonSharesSum(listing: seq<(string, nat)>)
    ensures |BuildButtonStats(listing)| == if |listing| < TOP_N then |listing| else TOP_N
    ensures SumButtonShares(BuildButtonStats(listing)) <= 100.05
  {
    var items := ButtonItems(listing);
    ButtonWeights(listing);
    TopAndOmitted(items);
    TopSharesSum(items);
    forall i | 0 <= i < |Top(items)|
      ensures BuildButtonStats(listing)[i].sharePercent == Share(Top(items)[i].weight, SumWeights(items))
    {
      ButtonShareIs(listing, i);
    }
    SumButtonSharesIs(BuildButtonStats(listing), Top(items), SumWeights(items));
  }

  lemma {:induction false} SumButtonSharesIs(stats: seq<ButtonStat>, top: seq<Ranked>, whole: real)
    requires |stats| == |top| && forall i :: 0 <= i < |top| ==> stats[i].sharePercent == Share(top[i].weight, whole)
    ensures SumButtonShares(stats) == SumShares(top, whole)
  {
    if stats != [] {
      SumButtonSharesIs(stats[1..], top[1..], whole);
    }
  }

  lemma {:induction false} SumSectionSharesIs(stats: seq<SectionStat>, top: seq<Ranked>, whole: real)
    requires |stats| == |top| && forall i :: 0 <= i < |top| ==> stats[i].sharePercent == Share(top[i].weight, whole)
    ensures SumSectionShares(stats) == SumShares(top, whole)
  {
    if stats != [] {
      SumSectionSharesIs(stats[1..], top[1..], whole);
    }
  }

  ghost predicate NonNegativeMs(listing: seq<(string, Activity)>) {
    forall e :: e in listing ==> e.1.ms >= 0.0
  }

  lemma SectionItemsNonNegative(listing: seq<(string, Activity)>)
    requires NonNegativeMs(listing)
    ensures NonNegative(SectionItems(listing))
  {
    forall r | r in SectionItems(listing) ensures r.weight >= 0.0 {
      var k :| 0 <= k < |listing| && SectionItems(listing)[k] == r;
      assert listing[k] in listing;
    }
  }

  lemma SectionShareIs(listing: seq<(string, Activity)>, i: nat)
    requires i < |Top(SectionItems(listing))|
    ensures SectionStats(listing)[i].sharePercent
            == Share(Top(SectionItems(listing))[i].weight, SumWeights(SectionItems(listing)))
  {
    SectionWeights(listing);
  }

  /** The same of the sections, ranked by duration. */
  lemma SectionShareClose(listing: seq<(string, Activity)>, i: nat)
    requires NonNegativeMs(listing) && i < |SectionStats(listing)| && SumWeights(SectionItems(listing)) > 0.0
    ensures InPercent(SectionStats(listing)[i].sharePercent, Top(SectionItems(listing))[i].weight,
            SumWeights(SectionItems(listing)))
  {
    SectionItemsNonNegative(listing);
    SectionShareIs(listing, i);
    TopShareAt(SectionItems(listing), i);
  }

  lemma SectionSharesSum(listing: seq<(string, Activity)>)
    requires NonNegativeMs(listing)
    ensures |SectionStats(listing)| == if |listing| < TOP_N then |listing| else TOP_N
    ensures SumSectionShares(SectionStats(listing)) <= 100.05
  {
    var items := SectionItems(listing);
    SectionItemsNonNegative(listing);
    TopAndOmitted(items);
    TopSharesSum(items);
    forall i | 0 <= i < |Top(items)|
      ensures SectionStats(listing)[i].sharePercent == Share(Top(items)[i].weight, SumWeights(items))
    {
      SectionShareIs(listing, i);
    }
    SumSectionSharesIs(SectionStats(listing), Top(items), SumWeights(items));
  }

  lemma SectionItemsAreDistinct(raw: map<string, Activity>, listing: seq<(string, Activity)>)
    requires Lists(listing, raw)
    ensures DistinctNames(SectionItems(listing))
  {
  }

  /** Every stat shows its section's own interactions and duration, and no section left out beats one shown. */
  lemma SectionStatsAreTheTop(raw: map<string, Activity>, listing: seq<(string, Activity)>, i: nat, other: string)
    requires Lists(listing, raw) && i < |SectionStats(listing)|
    requires other in raw && forall s :: s in SectionStats(listing) ==> s.section != other
    ensures var s := SectionStats(listing)[i];
            s.section in raw && s.interactions == raw[s.section].hovers
                    && s.totalSeconds == Round2(raw[s.section].ms / 1000.0)
            && (raw[s.section].ms > raw[other].ms
                    || (raw[s.section].ms == raw[other].ms && Ordering.StrLe(s.section, other)))
  {
    var items, stats := SectionItems(listing), SectionStats(listing);
    var k := TopMember(items, i);
    assert (other, raw[other]) in listing;
    var j :| 0 <= j < |listing| && listing[j] == (other, raw[other]);
    var y := SectionItem(listing[j]);
    assert items[j] == y;
    forall m | 0 <= m < |Top(items)| ensures Top(items)[m] != y {
      assert stats[m] in stats;
    }
    SectionItemsAreDistinct(raw, listing);
    OmittedIsBeaten(items, i, y);
  }

  /** The sections come with the longest duration first, and equal ones by name. */
  lemma SectionStatsInOrder(raw: map<string, Activity>, listing: seq<(string, Activity)>, i: nat, j: nat)
    requires Lists(listing, raw) && i < j < |SectionStats(listing)|
    ensures var s, t := SectionStats(listing)[i].section, SectionStats(listing)[j].section;
            s in raw && t in raw
            && (raw[s].ms > raw[t].ms || (raw[s].ms == raw[t].ms && Ordering.StrLe(s, t)))
  {
    var items := SectionItems(listing);
    SectionItemsAreDistinct(raw, listing);
    TopInOrder(items);
    var a := TopMember(items, i);
    var b := TopMember(items, j);
    assert RankLe(Top(items)[i], Top(items)[j]);
  }

  /** A section's average is its time per interaction, in seconds and to the nearest hundredth; without
      interactions it is 0. */
  lemma SectionAverageIs(raw: map<string, Activity>, listing: seq<(string, Activity)>, i: nat)
    requires Lists(listing, raw) && i < |SectionStats(listing)|
    ensures var s := SectionStats(listing)[i];
            && s.section in raw
            && (raw[s.section].hovers == 0 ==> s.averageSeconds == 0.0)
            && (raw[s.section].hovers > 0 ==>
                  RoundedTo(raw[s.section].ms / 1000.0 / raw[s.section].hovers as real, s.averageSeconds))
  {
    var k := TopMember(SectionItems(listing), i);
    var s := SectionStats(listing)[i];
    if raw[s.section].hovers > 0 {
      Round2Is(raw[s.section].ms / 1000.0 / raw[s.section].hovers as real, s.averageSeconds);
    }
  }

  /** Without clicks, or without time, every share is 0. */
  lemma SharesOfNothing(buttons: seq<(string, nat)>, sections: seq<(string, Activity)>, i: nat)
    ensures SumEntries(COUNTS, buttons) == 0 && i < |BuildButtonStats(buttons)| ==>
              BuildButtonStats(buttons)[i].sharePercent == 0.0
    ensures SumEntries(SECTIONS, sections).ms == 0.0 && i < |SectionStats(sections)| ==>
              SectionStats(sections)[i].sharePercent == 0.0
  {
  }

  // --- The order of the dictionary does not matter ----------------------

  lemma ListingsAgree<V(!new)>(m: map<string, V>, a: seq<(string, V)>, b: seq<(string, V)>)
    requires Lists(a, m) && Lists(b, m)
    ensures multiset(a) == multiset(b)
  {
    forall e: (string, V) ensures multiset(a)[e] == multiset(b)[e] {
      OnceAtMost(a, e);
      OnceAtMost(b, e);
      ListedIffThere(m, a, e);
      ListedIffThere(m, b, e);
    }
  }

  lemma ListedIffThere<V(!new)>(m: map<string, V>, a: seq<(string, V)>, e: (string, V))
    requires Lists(a, m)
    ensures e in a <==> e.0 in m && m[e.0] == e.1
  {
  }

  lemma {:induction false} OnceAtMost<V(!new)>(a: seq<(string, V)>, e: (string, V))
    requires forall i, j :: 0 <= i < j < |a| ==> a[i].0 != a[j].0
    ensures multiset(a)[e] == if e in a then 1 else 0
  {
    if a != [] {
      assert a == [a[0]] + a[1..];
      OnceAtMost(a[1..], e);
    }
  }

  lemma ListingInit<V(!new)>(m: map<string, V>, a: seq<(string, V)>)
    requires Lists(a, m) && a != []
    ensures Lists(a[..|a| - 1], m - {a[|a| - 1].0})
    ensures m == (m - {a[|a| - 1].0})[a[|a| - 1].0 := a[|a| - 1].1]
  {
    var init, last := a[..|a| - 1], a[|a| - 1];
    var before := m - {last.0};
    forall n | n in before ensures (n, before[n]) in init {
      assert (n, m[n]) in a;
      var i :| 0 <= i < |a| && a[i] == (n, m[n]);
      assert init[i] == a[i];
    }
  }

  lemma {:induction false} TallyOfListing<V(!new)>(ad: Adder<V>, m: map<string, V>, a: seq<(string, V)>)
    requires ad.Lawful() && Lists(a, m)
    ensures Tally(ad, a) == m
    decreases |a|
  {
    if a == [] {
      assert m == map[];
    } else {
      var init, last := a[..|a| - 1], a[|a| - 1];
      ListingInit(m, a);
      TallyOfListing(ad, m - {last.0}, init);
      assert ad.plus(ad.zero, last.1) == last.1;
    }
  }

  /** A dictionary gives one report, however its items happen to be ordered. */
  lemma ReportIsUnique(counts: map<string, nat>, a: seq<(string, nat)>, b: seq<(string, nat)>)
    requires Lists(a, counts) && Lists(b, counts)
    ensures BuildButtonStats(a) == BuildButtonStats(b)
  {
    Lawful();
    TallyOfListing(COUNTS, counts, a);
    GrandTotal(COUNTS, a, b);
    ListingsAgree(counts, a, b);
    ButtonItemsPermute(a, b);
    TopIsUnique(ButtonItems(a), ButtonItems(b));
  }

  lemma SectionTopIsUnique(raw: map<string, Activity>, a: seq<(string, Activity)>, b: seq<(string, Activity)>)
    requires Lists(a, raw) && Lists(b, raw)
    ensures Top(SectionItems(a)) == Top(SectionItems(b))
  {
    ListingsAgree(raw, a, b);
    SectionItemsPermute(a, b);
    SectionItemsAreDistinct(raw, a);
    TopIsUnique(SectionItems(a), SectionItems(b));
  }

  lemma SectionTotalIsUnique(raw: map<string, Activity>, a: seq<(string, Activity)>, b: seq<(string, Activity)>)
    requires Lists(a, raw) && Lists(b, raw)
    ensures SumEntries(SECTIONS, a) == SumEntries(SECTIONS, b)
  {
    Lawful();
    TallyOfListing(SECTIONS, raw, a);
    GrandTotal(SECTIONS, a, b);
  }

  lemma SectionReportIsUnique(raw: map<string, Activity>, a: seq<(string, Activity)>, b: seq<(string, Activity)>)
    requires Lists(a, raw) && Lists(b, raw)
    ensures SectionStats(a) == SectionStats(b)
  {
    SectionTopIsUnique(raw, a, b);
    SectionTotalIsUnique(raw, a, b);
  }

  lemma {:induction false} ButtonItemsPermute(a: seq<(string, nat)>, b: seq<(string, nat)>)
    requires multiset(a) == multiset(b)
    ensures multiset(ButtonItems(a)) == multiset(ButtonItems(b))
    decreases |a|
  {
    if a == [] {
      assert |b| == |multiset(b)| == 0;
    } else {
      var k := Position(a, b);
      var rest := b[..k] + b[k + 1..];
      ButtonItemsPermute(a[1..], rest);
      assert ButtonItems(a) == [ButtonItem(a[0])] + ButtonItems(a[1..]);
      assert ButtonItems(b) == ButtonItems(b[..k]) + [ButtonItem(b[k])] + ButtonItems(b[k + 1..]);
      assert ButtonItems(rest) == ButtonItems(b[..k]) + ButtonItems(b[k + 1..]);
    }
  }

  lemma {:induction false} SectionItemsPermute(a: seq<(string, Activity)>, b: seq<(string, Activity)>)
    requires multiset(a) == multiset(b)
    ensures multiset(SectionItems(a)) == multiset(SectionItems(b))
    decreases |a|
  {
    if a == [] {
      assert |b| == |multiset(b)| == 0;
    } else {
      var k := Position(a, b);
      var rest := b[..k] + b[k + 1..];
      SectionItemsPermute(a[1..], rest);
      assert SectionItems(a) == [SectionItem(a[0])] + SectionItems(a[1..]);
      assert SectionItems(b) == SectionItems(b[..k]) + [SectionItem(b[k])] + SectionItems(b[k + 1..]);
      assert SectionItems(rest) == SectionItems(b[..k]) + SectionItems(b[k + 1..]);
    }
  }

  /** Where the first element of one arrangement stands in the other. */
  lemma Position<T>(a: seq<T>, b: seq<T>) returns (k: nat)
    requires multiset(a) == multiset(b) && a != []
    ensures k < |b| && b[k] == a[0]
    ensures multiset(a[1..]) == multiset(b[..k] + b[k + 1..])
  {
    assert a == [a[0]] + a[1..];
    assert a[0] in multiset(b);
    k :| 0 <= k < |b| && b[k] == a[0];
    assert b == b[..k] + [b[k]] + b[k + 1..];
    assert multiset(a[1..]) == multiset(a) - multiset{a[0]};
  }

  // --- The lists of aggregated rows -------------------------------------

  lemma {:induction false} EntriesNonNegative(entries: seq<(string, Json)>)
    ensures forall e :: e in SectionEntriesOf(entries) ==> e.1.ms >= 0.0
    decreases |entries|
  {
    if entries != [] {
      EntriesNonNegative(entries[..|entries| - 1]);
    }
  }

  lemma {:induction false} AllEntriesNonNegative(metrics: seq<Metric>)
    ensures forall e :: e in AllSectionEntries(metrics) ==> e.1.ms >= 0.0
    decreases |metrics|
  {
    if metrics != [] {
      var last := metrics[|metrics| - 1];
      AllEntriesNonNegative(metrics[..|metrics| - 1]);
      if last.cursorHoverData.Dict? {
        EntriesNonNegative(last.cursorHoverData.entries);
      }
    }
  }

  lemma {:induction false} SumOfNonNegative(entries: seq<(string, Activity)>, name: string)
    requires forall e :: e in entries ==> e.1.ms >= 0.0
    ensures SumOf(SECTIONS, entries, name).ms >= 0.0
    decreases |entries|
  {
    if entries != [] {
      SumOfNonNegative(entries[..|entries| - 1], name);
    }
  }

  /** Whatever the rows hold, no section's duration is negative. */
  lemma SectionTotalsNonNegative(metrics: seq<Metric>, listing: seq<(string, Activity)>)
    requires Lists(listing, SectionTotals(metrics))
    ensures NonNegativeMs(listing)
  {
    AllEntriesNonNegative(metrics);
    forall e | e in listing ensures e.1.ms >= 0.0 {
      TotalsByName(metrics, e.0);
      SumOfNonNegative(AllSectionEntries(metrics), e.0);
    }
  }
}
