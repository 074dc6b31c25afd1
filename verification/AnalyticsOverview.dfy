/**
 The overview of a rolling period, and why the rows the database pre-selects are enough for it.
 Timestamps are microseconds, normalised to UTC.
 */
module AnalyticsOverview {
  import opened Wrappers
  import opened Tallies
  import opened BehaviorExtract
  import opened BehaviorStats
  import opened BehaviorReport
  import Ordering

  datatype Application = Application(id: nat, createdAt: Option<int>)

  datatype Period = Day | Week | Month

  const HOUR := 3_600_000_000

  function Duration(period: Period): int {
    match period
    case Day => 24 * HOUR
    case Week => 7 * 24 * HOUR
    case Month => 30 * 24 * HOUR
  }

  /** The half-open window that ends now. */
  predicate InPeriod(ts: Option<int>, period: Period, now: int) {
    ts.Some? && now - Duration(period) <= ts.value < now
  }

  /** The metric's own timestamp, or else that of its application. */
  function EffectiveTimestamp(m: Metric, byId: map<nat, Application>): Option<int> {
    if m.createdAt.Some? then m.createdAt
    else if m.applicationId.Some? && m.applicationId.value in byId then byId[m.applicationId.value].createdAt
    else None
  }

  function Filter<T(!new)>(keep: T -> bool, s: seq<T>): (r: seq<T>)
    ensures |r| <= |s| && forall x :: x in r <==> x in s && keep(x)
  {
    if s == [] then []
    else if keep(s[0]) then [s[0]] + Filter(keep, s[1..])
    else Filter(keep, s[1..])
  }

  /** A later row with the same id replaces an earlier one. */
  function ById(applications: seq<Application>): map<nat, Application> {
    if applications == [] then map[]
    else
      var last := applications[|applications| - 1];
      ById(applications[..|applications| - 1])[last.id := last]
  }

  function ApplicationsIn(applications: seq<Application>, period: Period, now: int): seq<Application> {
    Filter((a: Application) => InPeriod(a.createdAt, period, now), applications)
  }

  function MetricsIn(metrics: seq<Metric>, applications: seq<Application>, period: Period, now: int): seq<Metric> {
    var byId := ById(applications);
    Filter((m: Metric) => InPeriod(EffectiveTimestamp(m, byId), period, now), metrics)
  }

  // --- Averages ---------------------------------------------------------

  function SumReals(s: seq<real>): real {
    if s == [] then 0.0 else s[0] + SumReals(s[1..])
  }

  function Mean(s: seq<real>): Option<real> {
    if s == [] then None else Some(Round2(SumReals(s) / |s| as real))
  }

  predicate RealLe(a: real, b: real) {
    a <= b
  }

  /** The middle value, or the mean of the two middle ones. */
  function Middle(s: seq<real>): real
    requires s != []
  {
    var sorted := Ordering.Sort(RealLe, s);
    var n := |sorted|;
    if n % 2 == 1 then sorted[n / 2] else (sorted[n / 2 - 1] + sorted[n / 2]) / 2.0
  }

  function Median(s: seq<real>): Option<real> {
    if s == [] then None else Some(Round2(Middle(s)))
  }

  function Times(metrics: seq<Metric>): seq<real> {
    if metrics == [] then []
    else
      match ValidNumber(metrics[0].timeOnPage)
      case Some(x) => [x] + Times(metrics[1..])
      case None => Times(metrics[1..])
  }

  function Returns(metrics: seq<Metric>): seq<real> {
    if metrics == [] then []
    else
      match ValidCount(metrics[0].returnCount)
      case Some(n) => [n as real] + Returns(metrics[1..])
      case None => Returns(metrics[1..])
  }

  // --- The overview -----------------------------------------------------

  datatype Overview = Overview(
    period: Period, start: int, end: int,
    applicationsCount: nat, metricsCount: nat, withMetrics: nat, withoutMetrics: int,
    averageTime: Option<real>, medianTime: Option<real>, averageReturn: Option<real>, totalReturn: real,
    totalClicks: nat, uniqueButtons: nat, popularButtons: seq<ButtonStat>, sectionActivity: seq<SectionStat>)

  lemma {:induction false} ListingExists<V(!new)>(m: map<string, V>)
    ensures exists listing: seq<(string, V)> :: Lists(listing, m)
    decreases |m|
  {
    if m == map[] {
      var nothing: seq<(string, V)> := [];
      assert Lists(nothing, m);
    } else {
      var n :| n in m;
      ListingExists(m - {n});
      var rest: seq<(string, V)> :| Lists(rest, m - {n});
      OneMoreListed(m, n, rest);
    }
  }

  lemma OneMoreListed<V(!new)>(m: map<string, V>, n: string, rest: seq<(string, V)>)
    requires n in m && Lists(rest, m - {n})
    ensures Lists(rest + [(n, m[n])], m)
  {
    var all := rest + [(n, m[n])];
    forall k | k in m ensures (k, m[k]) in all {
      if k != n {
        assert (k, (m - {n})[k]) in rest;
      } else {
        assert all[|rest|] == (k, m[k]);
      }
    }
  }

  /** The dictionary's items in the order it yields them; which order that is makes no difference to
      either report. */
  ghost function Listing<V(!new)>(m: map<string, V>): (l: seq<(string, V)>)
    ensures Lists(l, m)
  {
    ListingExists(m);
    var l: seq<(string, V)> :| Lists(l, m);
    l
  }

  function ApplicationIds(applications: seq<Application>): set<nat> {
    set a | a in applications :: a.id
  }

  function MeasuredIds(metrics: seq<Metric>): set<nat> {
    set m | m in metrics && m.applicationId.Some? :: m.applicationId.value
  }

  /** The overview of the rows found to be in the period. */
  ghost function Report(applications: seq<Application>, metrics: seq<Metric>, period: Period, now: int): Overview {
    var withMetrics := |ApplicationIds(applications) * MeasuredIds(metrics)|;
    var buttons, sections := ButtonTotals(metrics), SectionTotals(metrics);
    Overview(
      period, now - Duration(period), now,
      |applications|, |metrics|, withMetrics, |applications| - withMetrics,
      Mean(Times(metrics)), Median(Times(metrics)), Mean(Returns(metrics)), SumReals(Returns(metrics)),
      SumEntries(COUNTS, Listing(buttons)), |buttons|,
      BuildButtonStats(Listing(buttons)), SectionStats(Listing(sections)))
  }

  ghost function BuildOverview(applications: seq<Application>, metrics: seq<Metric>, period: Period, now: int)
    : Overview
  {
    Report(ApplicationsIn(applications, period, now), MetricsIn(metrics, applications, period, now), period, now)
  }

  // --- Pre-scoped rows --------------------------------------------------

  /** WHERE created_at >= start AND created_at < end: a NULL timestamp is not selected. */
  function ScopedApplications(applications: seq<Application>, start: int, end: int): seq<Application> {
    Filter((a: Application) => a.createdAt.Some? && a.createdAt.value >= start && a.createdAt.value < end, applications)
  }

  function ScopedMetrics(metrics: seq<Metric>, start: int, end: int): seq<Metric> {
    Filter((m: Metric) => m.createdAt.Some? && m.createdAt.value >= start && m.createdAt.value < end, metrics)
  }

  lemma {:induction false} FilterAgrees<T(!new)>(p: T -> bool, q: T -> bool, s: seq<T>)
    requires forall x :: x in s ==> p(x) == q(x)
    ensures Filter(p, s) == Filter(q, s)
  {
    if s != [] {
      FilterAgrees(p, q, s[1..]);
    }
  }

  lemma {:induction false} FilterTwice<T(!new)>(p: T -> bool, s: seq<T>)
    ensures Filter(p, Filter(p, s)) == Filter(p, s)
  {
    if s != [] {
      FilterTwice(p, s[1..]);
      if p(s[0]) {
        assert ([s[0]] + Filter(p, s[1..]))[1..] == Filter(p, s[1..]);
      }
    }
  }

  /** A metric without a timestamp of its own that its application's timestamp places in the period. */
  ghost predicate PlacedByFallback(m: Metric, applications: seq<Application>, period: Period, now: int) {
    m.createdAt.None? && InPeriod(EffectiveTimestamp(m, ById(applications)), period, now)
  }

  ghost predicate NoFallback(metrics: seq<Metric>, applications: seq<Application>, period: Period, now: int) {
    forall m :: m in metrics ==> !PlacedByFallback(m, applications, period, now)
  }

  /** The overview that the route builds, from the rows the database selected. */
  ghost function RouteOverview(applications: seq<Application>, metrics: seq<Metric>, period: Period, now: int)
    : Overview
  {
    var start := now - Duration(period);
    BuildOverview(ScopedApplications(applications, start, now), ScopedMetrics(metrics, start, now), period, now)
  }

  /** Building the overview from the rows the database selected is building it from all rows if and only
      if no metric in the period depends on the fallback to its application's timestamp. */
  lemma PreScopedRowsAreEnough(applications: seq<Application>, metrics: seq<Metric>, period: Period, now: int)
    ensures RouteOverview(applications, metrics, period, now) == BuildOverview(applications, metrics, period, now)
       <==> NoFallback(metrics, applications, period, now)
  {
    var scoped := ScopedApplications(applications, now - Duration(period), now);
    ApplicationsScoped(applications, period, now);
    MetricsScoped(metrics, scoped, period, now);
    if NoFallback(metrics, applications, period, now) {
      OwnTimestampsDecide(metrics, applications, period, now);
    } else {
      FallbackCounts(metrics, applications, period, now);
    }
  }

  /** The metrics whose own timestamp lies in the period. */
  function OwnMetricsIn(metrics: seq<Metric>, period: Period, now: int): seq<Metric> {
    Filter((m: Metric) => InPeriod(m.createdAt, period, now), metrics)
  }

  lemma OwnTimestampsDecide(metrics: seq<Metric>, applications: seq<Application>, period: Period, now: int)
    requires NoFallback(metrics, applications, period, now)
    ensures MetricsIn(metrics, applications, period, now) == OwnMetricsIn(metrics, period, now)
  {
    var byId := ById(applications);
    forall m | m in metrics
      ensures InPeriod(EffectiveTimestamp(m, byId), period, now) == InPeriod(m.createdAt, period, now)
    {
      assert !PlacedByFallback(m, applications, period, now);
    }
    FilterAgrees((m: Metric) => InPeriod(EffectiveTimestamp(m, byId), period, now),
                 (m: Metric) => InPeriod(m.createdAt, period, now), metrics);
  }

  /** Every metric that depends on the fallback is one the database does not select. */
  lemma FallbackCounts(metrics: seq<Metric>, applications: seq<Application>, period: Period, now: int)
    requires !NoFallback(metrics, applications, period, now)
    ensures |OwnMetricsIn(metrics, period, now)| < |MetricsIn(metrics, applications, period, now)|
  {
    var byId := ById(applications);
    var m :| m in metrics && PlacedByFallback(m, applications, period, now);
    FilterStrictlyMore((x: Metric) => InPeriod(x.createdAt, period, now),
                       (x: Metric) => InPeriod(EffectiveTimestamp(x, byId), period, now), metrics, m);
  }

  lemma {:induction false} FilterStrictlyMore<T(!new)>(p: T -> bool, q: T -> bool, s: seq<T>, x: T)
    requires forall y :: y in s && p(y) ==> q(y)
    requires x in s && q(x) && !p(x)
    ensures |Filter(p, s)| < |Filter(q, s)|
  {
    if s[0] == x {
      FilterMonotone(p, q, s[1..]);
    } else {
      FilterStrictlyMore(p, q, s[1..], x);
    }
  }

  lemma ApplicationsScoped(applications: seq<Application>, period: Period, now: int)
    ensures ApplicationsIn(ScopedApplications(applications, now - Duration(period), now), period, now)
            == ApplicationsIn(applications, period, now)
  {
    var start := now - Duration(period);
    var inA, sqlA := (a: Application) => InPeriod(a.createdAt, period, now),
                     (a: Application) => a.createdAt.Some? && a.createdAt.value >= start && a.createdAt.value < now;
    FilterAgrees(inA, sqlA, applications);
    FilterTwice(inA, applications);
    assert ScopedApplications(applications, start, now) == Filter(sqlA, applications);
  }

  /** What is left of the selected metrics is decided by their own timestamps, whatever applications
      came along. */
  lemma MetricsScoped(metrics: seq<Metric>, scoped: seq<Application>, period: Period, now: int)
    ensures MetricsIn(ScopedMetrics(metrics, now - Duration(period), now), scoped, period, now)
         == OwnMetricsIn(metrics, period, now)
  {
    var start := now - Duration(period);
    var byScoped := ById(scoped);
    var own := (m: Metric) => InPeriod(m.createdAt, period, now);
    var sql := (m: Metric) => m.createdAt.Some? && m.createdAt.value >= start && m.createdAt.value < now;
    var inScoped := (m: Metric) => InPeriod(EffectiveTimestamp(m, byScoped), period, now);
    FilterAgrees(own, sql, metrics);
    var selected := ScopedMetrics(metrics, start, now);
    assert selected == Filter(own, metrics);
    FilterAgrees(inScoped, own, selected);
    FilterTwice(own, metrics);
  }

  lemma {:induction false} ByIdFinds(applications: seq<Application>, a: Application)
    requires a in applications && forall b :: b in applications && b.id == a.id ==> b == a
    ensures a.id in ById(applications) && ById(applications)[a.id] == a
    decreases |applications|
  {
    var init, last := applications[..|applications| - 1], applications[|applications| - 1];
    assert last in applications;
    if last.id != a.id {
      assert applications == init + [last];
      ByIdFinds(init, a);
    }
  }

  lemma {:induction false} FilterMember<T(!new)>(p: T -> bool, s: seq<T>, x: T)
    ensures x in Filter(p, s) <==> x in s && p(x)
  {
    if s != [] {
      FilterMember(p, s[1..], x);
    }
  }

  lemma InPeriodMember(metrics: seq<Metric>, applications: seq<Application>, m: Metric, period: Period, now: int)
    ensures m in MetricsIn(metrics, applications, period, now)
       <==> m in metrics && InPeriod(EffectiveTimestamp(m, ById(applications)), period, now)
  {
    var byId := ById(applications);
    FilterMember((x: Metric) => InPeriod(EffectiveTimestamp(x, byId), period, now), metrics, m);
  }

  lemma ScopedMember(metrics: seq<Metric>, m: Metric, start: int, end: int)
    ensures m in ScopedMetrics(metrics, start, end)
       <==> m in metrics && m.createdAt.Some? && m.createdAt.value >= start && m.createdAt.value < end
  {
    FilterMember((x: Metric) => x.createdAt.Some? && x.createdAt.value >= start && x.createdAt.value < end, metrics, m);
  }

  lemma RouteCountsFewer(metrics: seq<Metric>, applications: seq<Application>, period: Period, now: int)
    requires !NoFallback(metrics, applications, period, now)
    ensures RouteOverview(applications, metrics, period, now).metricsCount
            < BuildOverview(applications, metrics, period, now).metricsCount
  {
    MetricsScoped(metrics, ScopedApplications(applications, now - Duration(period), now), period, now);
    FallbackCounts(metrics, applications, period, now);
  }

  /** Whatever else is in the tables: a metric without a timestamp of its own, whose application's
      timestamp lies in the period, belongs to the overview of the whole tables, is not selected by the
      route, and is missing from the route's count. */
  lemma MissingTimestampIsLost(applications: seq<Application>, metrics: seq<Metric>, m: Metric, a: Application,
          period: Period, now: int)
    requires m in metrics && m.createdAt.None? && m.applicationId == Some(a.id)
    requires a in applications && InPeriod(a.createdAt, period, now)
    requires forall b :: b in applications && b.id == a.id ==> b == a
    ensures m in MetricsIn(metrics, applications, period, now)
    ensures m !in ScopedMetrics(metrics, now - Duration(period), now)
    ensures RouteOverview(applications, metrics, period, now).metricsCount
            < BuildOverview(applications, metrics, period, now).metricsCount
  {
    ByIdFinds(applications, a);
    assert PlacedByFallback(m, applications, period, now);
    InPeriodMember(metrics, applications, m, period, now);
    ScopedMember(metrics, m, now - Duration(period), now);
    RouteCountsFewer(metrics, applications, period, now);
  }

  /** The overview's clicks are those in the raw rows of the metrics in the period. */
  lemma ClicksAreConserved(applications: seq<Application>, metrics: seq<Metric>, period: Period, now: int)
    ensures BuildOverview(applications, metrics, period, now).totalClicks
            == SumEntries(COUNTS, AllButtonEntries(MetricsIn(metrics, applications, period, now)))
            == RawClicks(MetricsIn(metrics, applications, period, now))
  {
    var m := MetricsIn(metrics, applications, period, now);
    GrandTotals(m, Listing(ButtonTotals(m)), Listing(SectionTotals(m)));
  }

  // --- The median -------------------------------------------------------

  lemma {:induction false} FewInPrefix<T(!new)>(p: T -> bool, s: seq<T>, k: nat)
    requires k <= |s| && forall i :: k <= i < |s| ==> !p(s[i])
    ensures |Filter(p, s)| <= k
  {
    if s != [] {
      FewInPrefix(p, s[1..], if k == 0 then 0 else k - 1);
    }
  }

  lemma {:induction false} FewInSuffix<T(!new)>(p: T -> bool, s: seq<T>, k: nat)
    requires k <= |s| && forall i :: 0 <= i < k ==> !p(s[i])
    ensures |Filter(p, s)| <= |s| - k
  {
    if s != [] && k > 0 {
      FewInSuffix(p, s[1..], k - 1);
    }
  }

  lemma {:induction false} InsertCount(p: real -> bool, x: real, s: seq<real>)
    ensures |Filter(p, Ordering.Insert(RealLe, x, s))| == |Filter(p, s)| + if p(x) then 1 else 0
  {
    if s == [] || RealLe(x, s[0]) {
      assert ([x] + s)[1..] == s;
    } else {
      InsertCount(p, x, s[1..]);
      var rest := Ordering.Insert(RealLe, x, s[1..]);
      assert ([s[0]] + rest)[1..] == rest;
    }
  }

  lemma {:induction false} SortCount(p: real -> bool, s: seq<real>)
    ensures |Filter(p, Ordering.Sort(RealLe, s))| == |Filter(p, s)|
  {
    if s != [] {
      SortCount(p, s[1..]);
      InsertCount(p, s[0], Ordering.Sort(RealLe, s[1..]));
    }
  }

  lemma RealsSorted(s: seq<real>)
    ensures Ordering.SortedBy(RealLe, Ordering.Sort(RealLe, s))
  {
    assert Ordering.TotalOn(RealLe, multiset(s));
    Ordering.SortSorted(RealLe, s);
  }

  lemma MiddleOfSorted(sorted: seq<real>, m: real)
    requires sorted != [] && Ordering.SortedBy(RealLe, sorted)
    requires m == if |sorted| % 2 == 1 then sorted[|sorted| / 2]
                  else (sorted[|sorted| / 2 - 1] + sorted[|sorted| / 2]) / 2.0
    ensures forall i :: |sorted| / 2 <= i < |sorted| ==> sorted[i] >= m
    ensures forall i :: 0 <= i < |sorted| - |sorted| / 2 ==> sorted[i] <= m
  {
    var h := |sorted| / 2;
    forall i | h <= i < |sorted| ensures sorted[i] >= m {
      assert i == h || RealLe(sorted[h], sorted[i]);
      assert h == 0 || RealLe(sorted[h - 1], sorted[h]);
    }
    forall i | 0 <= i < |sorted| - h ensures sorted[i] <= m {
      assert i == h || RealLe(sorted[i], sorted[h]);
      assert i >= h - 1 || RealLe(sorted[i], sorted[h - 1]);
    }
  }

  /** At most half of the values lie below the median, and at most half above it. */
  lemma MedianSplits(s: seq<real>)
    requires s != []
    ensures 2 * |Filter((x: real) => x < Middle(s), s)| <= |s|
    ensures 2 * |Filter((x: real) => x > Middle(s), s)| <= |s|
  {
    var sorted, m := Ordering.Sort(RealLe, s), Middle(s);
    RealsSorted(s);
    MiddleOfSorted(sorted, m);
    HalvesOf(s, sorted, m);
  }

  lemma HalvesOf(s: seq<real>, sorted: seq<real>, m: real)
    requires sorted == Ordering.Sort(RealLe, s)
    requires forall i :: |s| / 2 <= i < |s| ==> sorted[i] >= m
    requires forall i :: 0 <= i < |s| - |s| / 2 ==> sorted[i] <= m
    ensures 2 * |Filter((x: real) => x < m, s)| <= |s|
    ensures 2 * |Filter((x: real) => x > m, s)| <= |s|
  {
    var below, above := (x: real) => x < m, (x: real) => x > m;
    SortCount(below, s);
    SortCount(above, s);
    FewInPrefix(below, sorted, |s| / 2);
    FewInSuffix(above, sorted, |s| - |s| / 2);
  }

  /** Of n values, at most `below` are less and at most `above` are more. */
  ghost predicate Between(s: seq<real>, x: real, below: int, above: int) {
    && x in s
    && |Filter((y: real) => y < x, s)| <= below
    && |Filter((y: real) => y > x, s)| <= above
  }

  lemma RankBetween(s: seq<real>, sorted: seq<real>, k: nat)
    requires sorted == Ordering.Sort(RealLe, s) && k < |sorted|
    ensures Between(s, sorted[k], k, |s| - k - 1)
  {
    var x := sorted[k];
    RealsSorted(s);
    assert x in multiset(sorted);
    var below, above := (y: real) => y < x, (y: real) => y > x;
    SortCount(below, s);
    SortCount(above, s);
    forall i | k <= i < |sorted| ensures !below(sorted[i]) {
      assert i == k || RealLe(sorted[k], sorted[i]);
    }
    forall i | 0 <= i < k + 1 ensures !above(sorted[i]) {
      assert i == k || RealLe(sorted[i], sorted[k]);
    }
    FewInPrefix(below, sorted, k);
    FewInSuffix(above, sorted, k + 1);
  }

  /** The median is the mean of the lower and the upper middle value, which are one for an odd number. */
  lemma MiddleIs(s: seq<real>) returns (low: real, high: real)
    requires s != []
    ensures Middle(s) == (low + high) / 2.0
    ensures Between(s, low, (|s| - 1) / 2, |s| / 2) && Between(s, high, |s| / 2, (|s| - 1) / 2)
  {
    var sorted := Ordering.Sort(RealLe, s);
    var below, above := Halves(|s|);
    low, high := sorted[below], sorted[above];
    RankBetween(s, sorted, below);
    RankBetween(s, sorted, above);
  }

  lemma Halves(n: nat) returns (below: nat, above: nat)
    requires n > 0
    ensures below == (n - 1) / 2 && above == n / 2 && below + above == n - 1
    ensures if n % 2 == 1 then below == above else below == above - 1
  {
    below, above := (n - 1) / 2, n / 2;
  }

  // --- The numbers of the rows ------------------------------------------

  lemma {:induction false} TimesConcat(a: seq<Metric>, b: seq<Metric>)
    ensures Times(a + b) == Times(a) + Times(b)
  {
    if a == [] {
      assert a + b == b;
    } else {
      var first := match ValidNumber(a[0].timeOnPage) case Some(x) => [x] case None => [];
      TimesConcat(a[1..], b);
      assert (a + b)[1..] == a[1..] + b && (a + b)[0] == a[0];
      assert Times(a) == first + Times(a[1..]) && Times(a + b) == first + Times(a[1..] + b);
    }
  }

  lemma {:induction false} ReturnsConcat(a: seq<Metric>, b: seq<Metric>)
    ensures Returns(a + b) == Returns(a) + Returns(b)
  {
    if a == [] {
      assert a + b == b;
    } else {
      var first := match ValidCount(a[0].returnCount) case Some(n) => [n as real] case None => [];
      ReturnsConcat(a[1..], b);
      assert (a + b)[1..] == a[1..] + b && (a + b)[0] == a[0];
      assert Returns(a) == first + Returns(a[1..]) && Returns(a + b) == first + Returns(a[1..] + b);
    }
  }

  /** One row gives the times its time on the page, if that is an amount, and the returns its number of
      returns, if that is a whole number; rows give their numbers one after another. */
  lemma NumbersOfRows(a: seq<Metric>, m: Metric, x: real, n: nat)
    ensures IsAmount(m.timeOnPage, x) ==> Times(a + [m]) == Times(a) + [x]
    ensures (forall y :: !IsAmount(m.timeOnPage, y)) ==> Times(a + [m]) == Times(a)
    ensures IsWhole(m.returnCount, n) ==> Returns(a + [m]) == Returns(a) + [n as real]
    ensures (forall k: nat :: !IsWhole(m.returnCount, k)) ==> Returns(a + [m]) == Returns(a)
  {
    TimesConcat(a, [m]);
    ReturnsConcat(a, [m]);
    NumbersAre(m.timeOnPage, 0, x);
    NumbersAre(m.returnCount, n, 0.0);
    if ValidNumber(m.timeOnPage).Some? {
      NumbersAre(m.timeOnPage, 0, ValidNumber(m.timeOnPage).value);
    }
    if ValidCount(m.returnCount).Some? {
      NumbersAre(m.returnCount, ValidCount(m.returnCount).value, 0.0);
    }
    assert [m][1..] == [];
  }

  lemma {:induction false} SumRealsConcat(a: seq<real>, x: real)
    ensures SumReals([]) == 0.0 && SumReals(a + [x]) == SumReals(a) + x
  {
    if a == [] {
      assert a + [x] == [x];
    } else {
      SumRealsConcat(a[1..], x);
      assert (a + [x])[1..] == a[1..] + [x];
    }
  }

  // --- What the overview shows ------------------------------------------

  /** The rounded mean of some numbers; none of no numbers. */
  ghost predicate IsMean(mean: Option<real>, s: seq<real>) {
    if s == [] then mean.None? else mean.Some? && RoundedTo(SumReals(s) / |s| as real, mean.value)
  }

  ghost predicate MiddlePair(s: seq<real>, low: real, high: real) {
    Between(s, low, (|s| - 1) / 2, |s| / 2) && Between(s, high, |s| / 2, (|s| - 1) / 2)
  }

  /** The rounded mean of the two middle values; none of no numbers. */
  ghost predicate IsMedian(median: Option<real>, s: seq<real>) {
    if s == [] then median.None?
    else median.Some? && exists low, high :: MiddlePair(s, low, high) && RoundedTo((low + high) / 2.0, median.value)
  }

  lemma Rounds(x: real)
    ensures RoundedTo(x, Round2(x))
  {
    Round2Is(x, Round2(x));
  }

  lemma MeanIs(s: seq<real>)
    ensures IsMean(Mean(s), s)
  {
    if s != [] {
      Rounds(SumReals(s) / |s| as real);
    }
  }

  lemma MedianIs(s: seq<real>)
    ensures IsMedian(Median(s), s)
  {
    if s != [] {
      var low, high := MiddleIs(s);
      var middle := Middle(s);
      assert MiddlePair(s, low, high) && middle == (low + high) / 2.0;
      Rounds(middle);
    }
  }

  /** The averages are those of the numbers in the rows of the period. */
  lemma OverviewAverages(applications: seq<Application>, metrics: seq<Metric>, period: Period, now: int)
    ensures var o := BuildOverview(applications, metrics, period, now);
            var m := MetricsIn(metrics, applications, period, now);
            && IsMean(o.averageTime, Times(m)) && IsMedian(o.medianTime, Times(m))
            && IsMean(o.averageReturn, Returns(m)) && o.totalReturn == SumReals(Returns(m))
            && o.period == period && o.end == now && o.end - o.start == Duration(period)
  {
    var m := MetricsIn(metrics, applications, period, now);
    MeanIs(Times(m));
    MedianIs(Times(m));
    MeanIs(Returns(m));
  }

  lemma {:induction false} ClickedNames(entries: seq<(string, nat)>, name: string)
    requires forall e :: e in entries ==> e.1 > 0
    ensures SumOf(COUNTS, entries, name) > 0 <==> exists i :: 0 <= i < |entries| && entries[i].0 == name
    decreases |entries|
  {
    if entries != [] {
      var init, last := entries[..|entries| - 1], entries[|entries| - 1];
      assert last in entries;
      ClickedNames(init, name);
      assert forall i :: 0 <= i < |init| ==> init[i] == entries[i];
    }
  }

  lemma {:induction false} ItemsArePositive(items: seq<Json>)
    ensures forall e :: e in ButtonEntriesOf(items) ==> e.1 > 0
    decreases |items|
  {
    if items != [] {
      ItemsArePositive(items[..|items| - 1]);
    }
  }

  lemma {:induction false} ClicksArePositive(metrics: seq<Metric>)
    ensures forall e :: e in AllButtonEntries(metrics) ==> e.1 > 0
    decreases |metrics|
  {
    if metrics != [] {
      var clicked := metrics[|metrics| - 1].clickedButtons;
      ClicksArePositive(metrics[..|metrics| - 1]);
      if clicked.List? {
        ItemsArePositive(clicked.items);
      }
    }
  }

  /** A button has a total exactly if it was clicked. */
  lemma TotalExactlyWhenClicked(metrics: seq<Metric>, name: string)
    ensures name in ButtonTotals(metrics) <==> RawClicksOn(metrics, name) > 0
    ensures name in ButtonTotals(metrics) ==> ButtonTotals(metrics)[name] == RawClicksOn(metrics, name)
  {
    Lawful();
    TotalsAreTallies(metrics);
    TotalsByName(metrics, name);
    TallyIsSumByName(COUNTS, AllButtonEntries(metrics), name);
    ClicksArePositive(metrics);
    ClickedNames(AllButtonEntries(metrics), name);
  }

  /** The buttons of the overview: how many were clicked, and of those shown, how often, told from the
      raw rows of the period; none left out was clicked more often than one shown. */
  lemma OverviewButtons(applications: seq<Application>, metrics: seq<Metric>, period: Period, now: int, i: nat,
          other: string) returns (clicked: set<string>)
    ensures var o := BuildOverview(applications, metrics, period, now);
            var m := MetricsIn(metrics, applications, period, now);
            && |clicked| == o.uniqueButtons && (forall name :: name in clicked <==> RawClicksOn(m, name) > 0)
            && |o.popularButtons| == (if |clicked| < 10 then |clicked| else 10)
            && (i < |o.popularButtons| ==>
                  && o.popularButtons[i].count == RawClicksOn(m, o.popularButtons[i].name) > 0
                  && ((forall s :: s in o.popularButtons ==> s.name != other) ==>
                        o.popularButtons[i].count >= RawClicksOn(m, other)))
  {
    var m := MetricsIn(metrics, applications, period, now);
    var totals, listing := ButtonTotals(m), Listing(ButtonTotals(m));
    clicked := totals.Keys;
    forall name ensures name in clicked <==> RawClicksOn(m, name) > 0 {
      TotalExactlyWhenClicked(m, name);
    }
    ListedOnce(totals, listing);
    ButtonSharesSum(listing);
    if i < |BuildButtonStats(listing)| {
      ShownCount(totals, listing, i);
      TotalExactlyWhenClicked(m, BuildButtonStats(listing)[i].name);
      TotalExactlyWhenClicked(m, other);
      if other in totals && forall s :: s in BuildButtonStats(listing) ==> s.name != other {
        ButtonStatsAreTheTop(totals, listing, i, other);
      }
    }
  }

  lemma ShownCount(counts: map<string, nat>, listing: seq<(string, nat)>, i: nat)
    requires Lists(listing, counts) && i < |BuildButtonStats(listing)|
    ensures var s := BuildButtonStats(listing)[i]; s.name in counts && s.count == counts[s.name]
  {
    var k := TopMember(ButtonItems(listing), i);
  }

  lemma {:induction false} ListedOnce<V(!new)>(m: map<string, V>, listing: seq<(string, V)>)
    requires Lists(listing, m)
    ensures |listing| == |m.Keys|
    decreases |listing|
  {
    if listing == [] {
      assert m.Keys == {};
    } else {
      var last := listing[|listing| - 1];
      ListingInit(m, listing);
      ListedOnce(m - {last.0}, listing[..|listing| - 1]);
      assert m.Keys == (m - {last.0}).Keys + {last.0};
    }
  }

  ghost predicate ShowsVisits(s: SectionStat, m: seq<Metric>) {
    && s.interactions == RawVisitsTo(m, s.section).hovers
    && RoundedTo(RawVisitsTo(m, s.section).ms / 1000.0, s.totalSeconds)
  }

  /** A section shown has the interactions and, rounded, the seconds of the raw rows of the period. */
  lemma OverviewSections(applications: seq<Application>, metrics: seq<Metric>, period: Period, now: int, i: nat)
    requires i < |BuildOverview(applications, metrics, period, now).sectionActivity|
    ensures ShowsVisits(BuildOverview(applications, metrics, period, now).sectionActivity[i],
            MetricsIn(metrics, applications, period, now))
  {
    SectionsOfRows(MetricsIn(metrics, applications, period, now), i);
  }

  lemma SectionsOfRows(m: seq<Metric>, i: nat)
    requires i < |SectionStats(Listing(SectionTotals(m)))|
    ensures ShowsVisits(SectionStats(Listing(SectionTotals(m)))[i], m)
  {
    var s := SectionStats(Listing(SectionTotals(m)))[i];
    ShownSection(SectionTotals(m), Listing(SectionTotals(m)), i);
    TotalsShown(s, m);
  }

  ghost predicate ShowsTotals(s: SectionStat, raw: map<string, Activity>) {
    s.section in raw && s.interactions == raw[s.section].hovers && RoundedTo(raw[s.section].ms / 1000.0, s.totalSeconds)
  }

  lemma TotalsShown(s: SectionStat, m: seq<Metric>)
    requires ShowsTotals(s, SectionTotals(m))
    ensures ShowsVisits(s, m)
  {
    TotalsByName(m, s.section);
  }

  lemma ShownSection(raw: map<string, Activity>, listing: seq<(string, Activity)>, i: nat)
    requires Lists(listing, raw) && i < |SectionStats(listing)|
    ensures ShowsTotals(SectionStats(listing)[i], raw)
  {
    var k := TopMember(SectionItems(listing), i);
    var seconds := SectionItem(listing[k]).weight;
    assert seconds == raw[listing[k].0].ms / 1000.0;
    Rounds(seconds);
  }

  // --- The window -------------------------------------------------------

  /** A row is in the period if it is at most 1, 7 or 30 days old and not of this very moment. */
  lemma InPeriodIs(created: int, now: int, days: int)
    requires days == 1 || days == 7 || days == 30
    ensures InPeriod(Some(created), if days == 1 then Day else if days == 7 then Week else Month, now)
       <==> 0 < now - created <= days * 86_400_000_000
  {
  }

  /** All rows of the one period are rows of the other, which counts no fewer. */
  ghost predicate Includes(applications: seq<Application>, metrics: seq<Metric>, now: int, p: Period, q: Period) {
    && (forall a :: a in ApplicationsIn(applications, p, now) ==> a in ApplicationsIn(applications, q, now))
    && (forall m :: m in MetricsIn(metrics, applications, p, now) ==> m in MetricsIn(metrics, applications, q, now))
    && var less, more := BuildOverview(applications, metrics, p, now), BuildOverview(applications, metrics, q, now);
       less.applicationsCount <= more.applicationsCount && less.metricsCount <= more.metricsCount
  }

  lemma LongerIncludes(applications: seq<Application>, metrics: seq<Metric>, now: int, p: Period, q: Period)
    requires NoLonger(p, q)
    ensures Includes(applications, metrics, now, p, q)
  {
    PeriodsAreNested(applications, metrics, p, q, now);
  }

  /** Nothing of the day is missing from the week, and nothing of the week from the month. */
  lemma DayWeekMonth(applications: seq<Application>, metrics: seq<Metric>, now: int)
    ensures Includes(applications, metrics, now, Day, Week) && Includes(applications, metrics, now, Week, Month)
  {
    LongerIncludes(applications, metrics, now, Day, Week);
    LongerIncludes(applications, metrics, now, Week, Month);
  }

  // --- Counts -----------------------------------------------------------

  lemma {:induction false} FilterMonotone<T(!new)>(p: T -> bool, q: T -> bool, s: seq<T>)
    requires forall x :: x in s && p(x) ==> q(x)
    ensures |Filter(p, s)| <= |Filter(q, s)|
  {
    if s != [] {
      FilterMonotone(p, q, s[1..]);
    }
  }

  predicate NoLonger(p: Period, q: Period) {
    Duration(p) <= Duration(q)
  }

  /** A longer period holds every row of a shorter one, and so counts at least as many. */
  lemma PeriodsAreNested(applications: seq<Application>, metrics: seq<Metric>, p: Period, q: Period, now: int)
    requires NoLonger(p, q)
    ensures forall a :: a in ApplicationsIn(applications, p, now) ==> a in ApplicationsIn(applications, q, now)
    ensures forall m :: m in MetricsIn(metrics, applications, p, now) ==> m in MetricsIn(metrics, applications, q, now)
    ensures var less := BuildOverview(applications, metrics, p, now);
            var more := BuildOverview(applications, metrics, q, now);
            less.applicationsCount <= more.applicationsCount && less.metricsCount <= more.metricsCount
  {
    var byId := ById(applications);
    FilterMonotone((a: Application) => InPeriod(a.createdAt, p, now),
            (a: Application) => InPeriod(a.createdAt, q, now), applications);
    FilterMonotone((m: Metric) => InPeriod(EffectiveTimestamp(m, byId), p, now),
            (m: Metric) => InPeriod(EffectiveTimestamp(m, byId), q, now), metrics);
  }

  lemma {:induction false} FewIds(applications: seq<Application>)
    ensures |ApplicationIds(applications)| <= |applications|
  {
    if applications != [] {
      FewIds(applications[1..]);
      assert applications == [applications[0]] + applications[1..];
      assert ApplicationIds(applications) == {applications[0].id} + ApplicationIds(applications[1..]);
    }
  }

  lemma {:induction false} SubsetIsNoLarger<T>(a: set<T>, b: set<T>)
    requires a <= b
    ensures |a| <= |b|
  {
    if a != {} {
      var x :| x in a;
      SubsetIsNoLarger(a - {x}, b - {x});
    }
  }

  /** With and without metrics are two non-negative parts of the applications. */
  lemma PartsOfApplications(applications: seq<Application>, metrics: seq<Metric>, period: Period, now: int)
    ensures var o := BuildOverview(applications, metrics, period, now);
            o.withoutMetrics >= 0 && o.withMetrics + o.withoutMetrics == o.applicationsCount
                    && o.withMetrics <= |metrics|
  {
    var a, m := ApplicationsIn(applications, period, now), MetricsIn(metrics, applications, period, now);
    FewIds(a);
    SubsetIsNoLarger(ApplicationIds(a) * MeasuredIds(m), ApplicationIds(a));
    FewMeasured(m);
    SubsetIsNoLarger(ApplicationIds(a) * MeasuredIds(m), MeasuredIds(m));
  }

  ghost predicate DistinctIds(applications: seq<Application>) {
    forall i, j :: 0 <= i < j < |applications| ==> applications[i].id != applications[j].id
  }

  /** Some metric is about the application. */
  ghost predicate Measured(a: Application, metrics: seq<Metric>) {
    exists m :: m in metrics && m.applicationId == Some(a.id)
  }

  ghost function MeasuredOnes(applications: seq<Application>, metrics: seq<Metric>): seq<Application> {
    if applications == [] then []
    else (if Measured(applications[0], metrics) then [applications[0]] else [])
         + MeasuredOnes(applications[1..], metrics)
  }

  lemma {:induction false} CountMeasured(applications: seq<Application>, metrics: seq<Metric>)
    requires DistinctIds(applications)
    ensures |ApplicationIds(applications) * MeasuredIds(metrics)| == |MeasuredOnes(applications, metrics)|
  {
    if applications != [] {
      var a, rest := applications[0], applications[1..];
      CountMeasured(rest, metrics);
      assert applications == [a] + rest;
      assert a.id !in ApplicationIds(rest);
      assert Measured(a, metrics) <==> a.id in MeasuredIds(metrics);
      assert ApplicationIds(applications) * MeasuredIds(metrics) ==
             ApplicationIds(rest) * MeasuredIds(metrics) + if Measured(a, metrics) then {a.id} else {};
    }
  }

  lemma {:induction false} FilterDistinct(p: Application -> bool, applications: seq<Application>)
    requires DistinctIds(applications)
    ensures DistinctIds(Filter(p, applications))
  {
    if applications != [] {
      FilterDistinct(p, applications[1..]);
      var rest := Filter(p, applications[1..]);
      forall j | 0 <= j < |rest| ensures rest[j].id != applications[0].id {
        assert rest[j] in applications[1..];
      }
    }
  }

  /** The applications with metrics are those of the period that a metric of the period is about. */
  lemma OverviewMeasured(applications: seq<Application>, metrics: seq<Metric>, period: Period, now: int)
    requires DistinctIds(applications)
    ensures var a, m := ApplicationsIn(applications, period, now), MetricsIn(metrics, applications, period, now);
            var o := BuildOverview(applications, metrics, period, now);
            && o.applicationsCount == |a| && o.metricsCount == |m|
            && o.withMetrics == |MeasuredOnes(a, m)|
  {
    FilterDistinct((a: Application) => InPeriod(a.createdAt, period, now), applications);
    CountMeasured(ApplicationsIn(applications, period, now), MetricsIn(metrics, applications, period, now));
  }

  lemma {:induction false} FewMeasured(metrics: seq<Metric>)
    ensures |MeasuredIds(metrics)| <= |metrics|
  {
    if metrics != [] {
      FewMeasured(metrics[1..]);
      assert metrics == [metrics[0]] + metrics[1..];
      var first := if metrics[0].applicationId.Some? then {metrics[0].applicationId.value} else {};
      assert MeasuredIds(metrics) == first + MeasuredIds(metrics[1..]);
    }
  }
}
