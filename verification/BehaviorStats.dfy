/** The ranked statistics: top ten by value then name, and shares rounded to two decimal places. */
module BehaviorStats {
  import opened Tallies
  import opened BehaviorExtract
  import opened Ordering

  // --- Rounding ---------------------------------------------------------

  function RoundHalfEven(x: real): int {
    var whole := x.Floor;
    var part := x - whole as real;
    if part > 0.5 || (part == 0.5 && whole % 2 == 1) then whole + 1 else whole
  }

  function Round2(x: real): real {
    RoundHalfEven(x * 100.0) as real / 100.0
  }

  lemma Round2Close(x: real)
    ensures x - 0.005 <= Round2(x) <= x + 0.005
    ensures 0.0 <= x <= 100.0 ==> 0.0 <= Round2(x) <= 100.0
  {
  }

  /** The nearest whole number, and of two equally near ones the even one. */
  predicate Nearest(x: real, k: int) {
    && -0.5 <= x - k as real <= 0.5
    && (x - k as real == 0.5 || x - k as real == -0.5 ==> k % 2 == 0)
  }

  lemma RoundsToNearest(x: real, k: int)
    ensures RoundHalfEven(x) == k <==> Nearest(x, k)
  {
  }

  /** `r` is `k` hundredths, the nearest there are to `x`. */
  predicate Hundredths(x: real, r: real, k: int) {
    r == k as real / 100.0 && Nearest(x * 100.0, k)
  }

  ghost predicate RoundedTo(x: real, r: real) {
    exists k: int :: Hundredths(x, r, k)
  }

  lemma Round2Is(x: real, r: real)
    ensures Round2(x) == r <==> RoundedTo(x, r)
  {
    RoundsToNearest(x * 100.0, RoundHalfEven(x * 100.0));
    assert Hundredths(x, Round2(x), RoundHalfEven(x * 100.0));
    if k: int :| Hundredths(x, r, k) {
      RoundsToNearest(x * 100.0, k);
    }
  }

  function Share(part: real, whole: real): real {
    if whole > 0.0 then Round2(part / whole * 100.0) else 0.0
  }

  // --- Ranking ----------------------------------------------------------

  /** A name with its count and the value it is ranked by. */
  datatype Ranked = Ranked(name: string, count: nat, weight: real)

  /** By value descending, then by name. */
  predicate RankLe(a: Ranked, b: Ranked) {
    a.weight > b.weight || (a.weight == b.weight && StrLe(a.name, b.name))
  }

  ghost predicate DistinctNames(s: seq<Ranked>) {
    forall i, j :: 0 <= i < j < |s| ==> s[i].name != s[j].name
  }

  lemma RankTotal(s: seq<Ranked>)
    requires DistinctNames(s)
    ensures TotalOn(RankLe, multiset(s))
  {
    forall x, y | x in multiset(s) && y in multiset(s)
      ensures RankLe(x, y) || RankLe(y, x)
      ensures RankLe(x, y) && RankLe(y, x) ==> x == y
    {
      StrLeTotal(x.name, y.name);
      var i :| 0 <= i < |s| && s[i] == x;
      var j :| 0 <= j < |s| && s[j] == y;
    }
    forall x, y, z | RankLe(x, y) && RankLe(y, z) ensures RankLe(x, z) {
      if StrLe(x.name, y.name) && StrLe(y.name, z.name) {
        StrLeTransitive(x.name, y.name, z.name);
      }
    }
  }

  const TOP_N := 10

  function Top(items: seq<Ranked>): seq<Ranked> {
    var ordered := Sort(RankLe, items);
    if |ordered| > TOP_N then ordered[..TOP_N] else ordered
  }

  /** What the top ten leaves out. */
  function Omitted(items: seq<Ranked>): seq<Ranked> {
    Sort(RankLe, items)[|Top(items)|..]
  }

  lemma TopAndOmitted(items: seq<Ranked>)
    ensures |Top(items)| == if |items| < TOP_N then |items| else TOP_N
    ensures Sort(RankLe, items) == Top(items) + Omitted(items)
    ensures multiset(Top(items)) + multiset(Omitted(items)) == multiset(items)
  {
    assert multiset(Top(items) + Omitted(items)) == multiset(Top(items)) + multiset(Omitted(items));
  }

  lemma TopInOrder(items: seq<Ranked>)
    requires DistinctNames(items)
    ensures SortedBy(RankLe, Top(items) + Omitted(items)) && SortedBy(RankLe, Top(items))
  {
    RankTotal(items);
    SortSorted(RankLe, items);
    TopAndOmitted(items);
  }

  /** The list shown has min(10, n) items in order, and nothing left out beats anything in it. */
  lemma TopIsBest(items: seq<Ranked>, x: Ranked, y: Ranked)
    requires DistinctNames(items) && x in Top(items) && y in Omitted(items)
    ensures RankLe(x, y)
  {
    TopInOrder(items);
    var all, n := Top(items) + Omitted(items), |Top(items)|;
    assert all[..n] == Top(items) && all[n..] == Omitted(items);
    PrefixBest(RankLe, all, n, x, y);
  }

  /** Everything shown is one of the items. */
  lemma TopMember(items: seq<Ranked>, i: nat) returns (k: nat)
    requires i < |Top(items)|
    ensures k < |items| && items[k] == Top(items)[i]
  {
    TopAndOmitted(items);
    assert Top(items)[i] in multiset(Top(items));
    assert Top(items)[i] in multiset(items);
    k :| 0 <= k < |items| && items[k] == Top(items)[i];
  }

  /** What is not shown is left out, and beaten by everything shown. */
  lemma OmittedIsBeaten(items: seq<Ranked>, i: nat, y: Ranked)
    requires DistinctNames(items) && i < |Top(items)| && y in items && y !in Top(items)
    ensures RankLe(Top(items)[i], y)
  {
    TopAndOmitted(items);
    assert y in multiset(items) && y !in multiset(Top(items));
    assert y in multiset(Omitted(items));
    TopIsBest(items, Top(items)[i], y);
  }

  /** The ranking does not depend on the order the items come in. */
  lemma TopIsUnique(a: seq<Ranked>, b: seq<Ranked>)
    requires DistinctNames(a) && multiset(a) == multiset(b)
    ensures Top(a) == Top(b)
  {
    RankTotal(a);
    SortSorted(RankLe, a);
    SortSorted(RankLe, b);
    SortedUnique(RankLe, Sort(RankLe, a), Sort(RankLe, b));
  }

  // --- Sums of values and of shares -------------------------------------

  function SumWeights(s: seq<Ranked>): real {
    if s == [] then 0.0 else s[0].weight + SumWeights(s[1..])
  }

  function SumShares(s: seq<Ranked>, whole: real): real {
    if s == [] then 0.0 else Share(s[0].weight, whole) + SumShares(s[1..], whole)
  }

  ghost predicate NonNegative(s: seq<Ranked>) {
    forall r :: r in s ==> r.weight >= 0.0
  }

  lemma {:induction false} InsertSum(x: Ranked, s: seq<Ranked>)
    ensures SumWeights(Insert(RankLe, x, s)) == x.weight + SumWeights(s)
  {
    if s == [] || RankLe(x, s[0]) {
      assert ([x] + s)[1..] == s;
    } else {
      InsertSum(x, s[1..]);
      assert ([s[0]] + Insert(RankLe, x, s[1..]))[1..] == Insert(RankLe, x, s[1..]);
    }
  }

  lemma {:induction false} SortSum(s: seq<Ranked>)
    ensures SumWeights(Sort(RankLe, s)) == SumWeights(s)
  {
    if s != [] {
      SortSum(s[1..]);
      InsertSum(s[0], Sort(RankLe, s[1..]));
    }
  }

  lemma {:induction false} PrefixSum(s: seq<Ranked>, n: nat)
    requires NonNegative(s) && n <= |s|
    ensures 0.0 <= SumWeights(s[..n]) <= SumWeights(s)
  {
    if s != [] {
      if n == 0 {
        PrefixSum(s[1..], 0);
      } else {
        PrefixSum(s[1..], n - 1);
        assert s[..n][1..] == s[1..][..n - 1];
      }
    }
  }

  lemma SortNonNegative(items: seq<Ranked>)
    requires NonNegative(items)
    ensures NonNegative(Sort(RankLe, items))
  {
    var ordered := Sort(RankLe, items);
    forall r | r in ordered ensures r.weight >= 0.0 {
      assert r in multiset(ordered) && r in multiset(items);
    }
  }

  lemma TopSum(items: seq<Ranked>)
    requires NonNegative(items)
    ensures 0.0 <= SumWeights(Top(items)) <= SumWeights(items)
    ensures NonNegative(Top(items))
  {
    var ordered := Sort(RankLe, items);
    SortNonNegative(items);
    SortSum(items);
    var n := |Top(items)|;
    assert Top(items) == ordered[..n];
    PrefixSum(ordered, n);
  }

  lemma QuotientAdds(a: real, b: real, c: real)
    requires c > 0.0
    ensures (a + b) / c == a / c + b / c
  {
    assert (a / c + b / c) * c == a + b;
    assert (a / c + b / c) * c / c == a / c + b / c;
  }

  lemma Percent(part: real, whole: real)
    requires whole > 0.0 && 0.0 <= part <= whole
    ensures 0.0 <= part / whole * 100.0 <= 100.0
  {
  }

  /** Every share is within 0.005 of the exact percentage and in 0..100. */
  lemma ShareClose(part: real, whole: real)
    requires 0.0 <= part <= whole && whole > 0.0
    ensures part / whole * 100.0 - 0.005 <= Share(part, whole) <= part / whole * 100.0 + 0.005
    ensures 0.0 <= Share(part, whole) <= 100.0
  {
    Percent(part, whole);
    Round2Close(part / whole * 100.0);
  }

  lemma {:induction false} SharesBounded(s: seq<Ranked>, whole: real)
    requires whole > 0.0
    ensures SumShares(s, whole) <= SumWeights(s) / whole * 100.0 + 0.005 * |s| as real
  {
    if s != [] {
      SharesBounded(s[1..], whole);
      QuotientAdds(s[0].weight, SumWeights(s[1..]), whole);
      Round2Close(s[0].weight / whole * 100.0);
    }
  }

  predicate InPercent(share: real, part: real, whole: real)
    requires whole > 0.0
  {
    0.0 <= share <= 100.0 && part / whole * 100.0 - 0.005 <= share <= part / whole * 100.0 + 0.005
  }

  lemma TopShareAt(items: seq<Ranked>, i: nat)
    requires NonNegative(items) && i < |Top(items)| && SumWeights(items) > 0.0
    ensures InPercent(Share(Top(items)[i].weight, SumWeights(items)), Top(items)[i].weight, SumWeights(items))
  {
    TopSum(items);
    OneOfSum(Top(items), Top(items)[i]);
    ShareClose(Top(items)[i].weight, SumWeights(items));
  }

  /** The shares shown add up to at most 100.05. */
  lemma TopSharesSum(items: seq<Ranked>)
    requires NonNegative(items)
    ensures SumShares(Top(items), SumWeights(items)) <= 100.05
  {
    var top, whole := Top(items), SumWeights(items);
    TopSum(items);
    TopAndOmitted(items);
    if whole > 0.0 {
      SharesBounded(top, whole);
      Percent(SumWeights(top), whole);
    } else {
      NoShares(top, whole);
    }
  }

  lemma {:induction false} OneOfSum(s: seq<Ranked>, r: Ranked)
    requires NonNegative(s) && r in s
    ensures 0.0 <= r.weight <= SumWeights(s)
  {
    PrefixSum(s[1..], 0);
    if r != s[0] {
      OneOfSum(s[1..], r);
    }
  }

  lemma {:induction false} NoShares(s: seq<Ranked>, whole: real)
    requires whole <= 0.0
    ensures SumShares(s, whole) == 0.0
  {
    if s != [] {
      NoShares(s[1..], whole);
    }
  }
}
