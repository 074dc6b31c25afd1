/**
 The prioritized list: the WHERE clause over the materialized score, and the ordered pages shown
 to the admin.
 */
module PriorityPages {
  import opened Wrappers
  import opened Ordering
  import opened ScoreSync
  import Text
  import LikeSearch

  // --- The WHERE clause -------------------------------------------------

  datatype Filter =
    | AnyColumnILike(pattern: string)
    | ScoreBetween(low: int, high: int)

  predicate Passes(fold: char -> char, row: Row, filter: Filter) {
    match filter
    case AnyColumnILike(pattern) =>
      || LikeSearch.ILike(fold, row.fields.firstName, pattern)
      || LikeSearch.ILike(fold, row.fields.lastName, pattern)
      || LikeSearch.ILike(fold, row.fields.contactData, pattern)
      || LikeSearch.ILike(fold, row.fields.interestedProduct, pattern)
      || LikeSearch.ILike(fold, row.fields.businessInfo, pattern)
    case ScoreBetween(low, high) => low <= row.priorityScore <= high
  }

  predicate PassesAll(fold: char -> char, row: Row, filters: seq<Filter>) {
    forall i :: 0 <= i < |filters| ==> Passes(fold, row, filters[i])
  }

  /** Some searched column holds the query, ignoring case. */
  predicate Mentions(fold: char -> char, f: Fields, query: string) {
    var q := LikeSearch.Fold(fold, query);
    || LikeSearch.Contains(LikeSearch.Fold(fold, f.firstName), q)
    || LikeSearch.Contains(LikeSearch.Fold(fold, f.lastName), q)
    || LikeSearch.Contains(LikeSearch.Fold(fold, f.contactData), q)
    || LikeSearch.Contains(LikeSearch.Fold(fold, f.interestedProduct), q)
    || LikeSearch.Contains(LikeSearch.Fold(fold, f.businessInfo), q)
  }

  /** What the admin asked for, in terms of what is displayed. */
  predicate Wanted(rules: Rules, fold: char -> char, row: Row, search: Option<string>, priority: Option<Level>) {
    var query := if search.Some? then Text.Strip(search.value) else [];
    && (query != [] ==> Mentions(fold, row.fields, query))
    && (priority.Some? ==> PriorityLevel(Score(rules, row.fields)) == priority.value)
  }

  function PriorityFilter(level: Level): Filter {
    ScoreBetween(PriorityScoreBounds(level).0, PriorityScoreBounds(level).1)
  }

  function FiltersFor(search: Option<string>, priority: Option<Level>): seq<Filter> {
    var query := Text.Strip(if search.Some? then search.value else []);
    (if query != [] then [AnyColumnILike("%" + LikeSearch.EscapeLikeWildcards(query) + "%")] else [])
    + (if priority.Some? then [PriorityFilter(priority.value)] else [])
  }

  /** _prioritized_filters. */
  method PrioritizedFilters(search: Option<string>, priority: Option<Level>) returns (filters: seq<Filter>)
    ensures filters == FiltersFor(search, priority)
  {
    filters := [];
    var normalizedSearch := Text.Strip(if search.Some? then search.value else []);
    if normalizedSearch != [] {
      var pattern := "%" + LikeSearch.EscapeLikeWildcards(normalizedSearch) + "%";
      filters := filters + [AnyColumnILike(pattern)];
    }
    if priority.Some? {
      var (low, high) := PriorityScoreBounds(priority.value);
      filters := filters + [ScoreBetween(low, high)];
    }
  }

  lemma SearchFilterMeans(fold: char -> char, row: Row, query: string)
    requires LikeSearch.KeepsWildcards(fold)
    ensures Passes(fold, row, AnyColumnILike("%" + LikeSearch.EscapeLikeWildcards(query) + "%"))
            <==> Mentions(fold, row.fields, query)
  {
    var f := row.fields;
    LikeSearch.ILikeIsContains(fold, f.firstName, query);
    LikeSearch.ILikeIsContains(fold, f.lastName, query);
    LikeSearch.ILikeIsContains(fold, f.contactData, query);
    LikeSearch.ILikeIsContains(fold, f.interestedProduct, query);
    LikeSearch.ILikeIsContains(fold, f.businessInfo, query);
  }

  lemma PassesBoth(fold: char -> char, row: Row, a: seq<Filter>, b: seq<Filter>)
    ensures PassesAll(fold, row, a + b) <==> PassesAll(fold, row, a) && PassesAll(fold, row, b)
  {
    if PassesAll(fold, row, a + b) {
      assert forall i :: 0 <= i < |a| ==> a[i] == (a + b)[i];
      assert forall i :: 0 <= i < |b| ==> b[i] == (a + b)[|a| + i];
    }
  }

  lemma PassesOne(fold: char -> char, row: Row, f: Filter)
    ensures PassesAll(fold, row, [f]) <==> Passes(fold, row, f)
  {
    assert [f][0] == f;
  }

  /** A row whose stored score is in sync passes the filters exactly if it is wanted: its displayed
      level is the requested one and a searched column holds the stripped query. */
  lemma FiltersMean(rules: Rules, fold: char -> char, row: Row, search: Option<string>, priority: Option<Level>)
    requires LikeSearch.KeepsWildcards(fold)
    requires row.priorityScore == Score(rules, row.fields)
    ensures PassesAll(fold, row, FiltersFor(search, priority)) <==> Wanted(rules, fold, row, search, priority)
  {
    var query := Text.Strip(if search.Some? then search.value else []);
    var text: Filter := AnyColumnILike("%" + LikeSearch.EscapeLikeWildcards(query) + "%");
    var a: seq<Filter> := if query != [] then [text] else [];
    var b: seq<Filter> := if priority.Some? then [PriorityFilter(priority.value)] else [];
    assert FiltersFor(search, priority) == a + b;
    PassesBoth(fold, row, a, b);
    if query != [] {
      PassesOne(fold, row, text);
      SearchFilterMeans(fold, row, query);
    }
    if priority.Some? {
      PassesOne(fold, row, b[0]);
      BandIsLevel(rules, row.fields, priority.value);
    }
  }

  /** The priority criterion goes by the stored score: it selects a row for the displayed level and for
      no other if and only if the stored score has that level. */
  lemma FilterFollowsTheStoredScore(rules: Rules, fold: char -> char, row: Row)
    requires MIN_SCORE <= row.priorityScore <= MAX_SCORE
    ensures (forall level ::
               Passes(fold, row, PriorityFilter(level)) <==> PriorityLevel(Score(rules, row.fields)) == level)
       <==> PriorityLevel(row.priorityScore) == PriorityLevel(Score(rules, row.fields))
  {
    var stored := PriorityLevel(row.priorityScore);
    forall level ensures Passes(fold, row, PriorityFilter(level)) <==> stored == level {
    }
    assert Passes(fold, row, PriorityFilter(stored));
  }

  // --- ORDER BY, OFFSET, LIMIT ------------------------------------------

  /** Score descending, then created_at, then id. */
  predicate RowLe(a: Row, b: Row) {
    || a.priorityScore > b.priorityScore
    || (a.priorityScore == b.priorityScore
            && (a.createdAt < b.createdAt || (a.createdAt == b.createdAt && a.id <= b.id)))
  }

  function Matching(fold: char -> char, rows: seq<Row>, filters: seq<Filter>): seq<Row> {
    if rows == [] then []
    else (if PassesAll(fold, rows[0], filters) then [rows[0]] else []) + Matching(fold, rows[1..], filters)
  }

  function Slice(list: seq<Row>, skip: nat, limit: nat): seq<Row> {
    var from_ := if skip < |list| then skip else |list|;
    var to := if skip + limit < |list| then skip + limit else |list|;
    list[from_..to]
  }

  /** An order of the selected rows that satisfies the ORDER BY. */
  ghost predicate Arranged(list: seq<Row>, matching: seq<Row>) {
    multiset(list) == multiset(matching) && SortedBy(RowLe, list)
  }

  /** The highest score first; of equal scores the oldest row, and of equally old ones the lowest id. */
  predicate Precedes(score: Row -> int, a: Row, b: Row) {
    && score(a) >= score(b)
    && (score(a) == score(b) ==> a.createdAt <= b.createdAt)
    && (score(a) == score(b) && a.createdAt == b.createdAt ==> a.id <= b.id)
  }

  ghost predicate Descends(score: Row -> int, list: seq<Row>) {
    forall i, j :: 0 <= i < j < |list| ==> Precedes(score, list[i], list[j])
  }

  function StoredScore(r: Row): int {
    r.priorityScore
  }

  function DisplayedScore(rules: Rules): Row -> int {
    (r: Row) => Score(rules, r.fields)
  }

  lemma SortedDescends(list: seq<Row>)
    ensures SortedBy(RowLe, list) <==> Descends(StoredScore, list)
  {
    assert forall a, b :: RowLe(a, b) <==> Precedes(StoredScore, a, b);
  }

  /** The rows from `skip` on, at most `limit` of them. */
  predicate IsPage(items: seq<Row>, list: seq<Row>, skip: nat, limit: nat) {
    && (skip + |items| <= |list| || items == [])
    && (|items| == limit || |list| <= skip + |items|) && |items| <= limit
    && forall i :: 0 <= i < |items| ==> items[i] == list[skip + i]
  }

  lemma SliceIsPage(list: seq<Row>, skip: nat, limit: nat, items: seq<Row>)
    ensures items == Slice(list, skip, limit) <==> IsPage(items, list, skip, limit)
  {
  }

  /** What the two queries may return: a page of some such order, and the COUNT. */
  ghost predicate Answers(matching: seq<Row>, skip: nat, limit: nat, items: seq<Row>, total: nat) {
    exists list :: Arranged(list, matching) && items == Slice(list, skip, limit) && total == |list|
  }

  /** A page of a list that holds exactly the rows passing the filters, each once, in descending order. */
  ghost predicate PageOf(fold: char -> char, rows: seq<Row>, filters: seq<Filter>, list: seq<Row>, skip: nat,
          limit: nat, items: seq<Row>, total: nat) {
    && (forall r :: r in list <==> r in rows && PassesAll(fold, r, filters))
    && UniqueIds(list) && Descends(StoredScore, list)
    && total == |list| && IsPage(items, list, skip, limit)
  }

  lemma ArrangedPage(fold: char -> char, rows: seq<Row>, filters: seq<Filter>, list: seq<Row>, skip: nat, limit: nat)
    requires UniqueIds(rows) && Arranged(list, Matching(fold, rows, filters))
    ensures PageOf(fold, rows, filters, list, skip, limit, Slice(list, skip, limit), |list|)
  {
    SortedDescends(list);
    SliceIsPage(list, skip, limit, Slice(list, skip, limit));
    MatchingSubset(fold, rows, filters);
    NoRepeats(rows, list);
    forall r ensures r in list <==> r in rows && PassesAll(fold, r, filters) {
      SameMembers(list, Matching(fold, rows, filters), r);
    }
  }

  ghost predicate Shows(fold: char -> char, rows: seq<Row>, filters: seq<Filter>, skip: nat, limit: nat,
          items: seq<Row>, total: nat) {
    exists list :: PageOf(fold, rows, filters, list, skip, limit, items, total)
  }

  lemma SortedPage(fold: char -> char, rows: seq<Row>, filters: seq<Filter>, skip: nat, limit: nat)
    requires UniqueIds(rows)
    ensures var matching := Matching(fold, rows, filters);
            var list := Sort(RowLe, matching);
            Answers(matching, skip, limit, Slice(list, skip, limit), |list|)
            && Shows(fold, rows, filters, skip, limit, Slice(list, skip, limit), |list|)
  {
    var list := Sort(RowLe, Matching(fold, rows, filters));
    OneArrangement(fold, rows, filters, list);
    ArrangedPage(fold, rows, filters, list, skip, limit);
  }

  /** get_prioritized_applications_page. */
  method GetPrioritizedApplicationsPage(fold: char -> char, rows: seq<Row>, skip: nat, limit: nat,
                                        search: Option<string>, priority: Option<Level>)
    returns (items: seq<Row>, total: nat)
    requires UniqueIds(rows)
    ensures Answers(Matching(fold, rows, FiltersFor(search, priority)), skip, limit, items, total)
    ensures Shows(fold, rows, FiltersFor(search, priority), skip, limit, items, total)
  {
    var filters := PrioritizedFilters(search, priority);
    var matching := Matching(fold, rows, filters);
    var list := Sort(RowLe, matching);
    items, total := Slice(list, skip, limit), |list|;
    SortedPage(fold, rows, filters, skip, limit);
  }

  lemma RowsTotal(rows: seq<Row>)
    requires UniqueIds(rows)
    ensures TotalOn(RowLe, multiset(rows))
  {
    forall x, y | x in multiset(rows) && y in multiset(rows) && RowLe(x, y) && RowLe(y, x)
      ensures x == y
    {
      var i :| 0 <= i < |rows| && rows[i] == x;
      var j :| 0 <= j < |rows| && rows[j] == y;
    }
  }

  lemma {:induction false} MatchingSubset(fold: char -> char, rows: seq<Row>, filters: seq<Filter>)
    ensures multiset(Matching(fold, rows, filters)) <= multiset(rows)
    ensures forall r :: r in Matching(fold, rows, filters) <==> r in rows && PassesAll(fold, r, filters)
  {
    if rows != [] {
      MatchingSubset(fold, rows[1..], filters);
      assert rows == [rows[0]] + rows[1..];
    }
  }

  /** The tie-break on id leaves the database no choice: there is one order. */
  lemma OneArrangement(fold: char -> char, rows: seq<Row>, filters: seq<Filter>, list: seq<Row>)
    requires UniqueIds(rows)
    ensures var matching := Matching(fold, rows, filters);
            Arranged(list, matching) <==> list == Sort(RowLe, matching)
  {
    var matching := Matching(fold, rows, filters);
    RowsTotal(rows);
    MatchingSubset(fold, rows, filters);
    assert TotalOn(RowLe, multiset(matching));
    SortSorted(RowLe, matching);
    if Arranged(list, matching) {
      SortedUnique(RowLe, list, Sort(RowLe, matching));
    }
  }

  function Concat(pages: seq<seq<Row>>): seq<Row> {
    if pages == [] then [] else Concat(pages[..|pages| - 1]) + pages[|pages| - 1]
  }

  lemma SliceJoin(list: seq<Row>, k: nat, limit: nat)
    ensures Slice(list, 0, k) + Slice(list, k, limit) == Slice(list, 0, k + limit)
  {
  }

  /** 0, limit, 2 * limit, ... : where the n-th page starts. */
  function Offset(limit: nat, n: nat): nat {
    if n == 0 then 0 else Offset(limit, n - 1) + limit
  }

  /** `pages` are consecutive pages of `list`, starting at the first row. */
  ghost predicate Consecutive(list: seq<Row>, limit: nat, pages: seq<seq<Row>>) {
    forall n :: 0 <= n < |pages| ==> pages[n] == Slice(list, Offset(limit, n), limit)
  }

  lemma {:induction false} SlicesConcat(list: seq<Row>, limit: nat, pages: seq<seq<Row>>)
    requires Consecutive(list, limit, pages)
    ensures Concat(pages) == Slice(list, 0, Offset(limit, |pages|))
  {
    if pages != [] {
      var n := |pages| - 1;
      SlicesConcat(list, limit, pages[..n]);
      SliceJoin(list, Offset(limit, n), limit);
    }
  }

  /** The wanted rows and no others, each once, in the displayed order. */
  ghost predicate WantedList(rules: Rules, fold: char -> char, rows: seq<Row>, search: Option<string>,
          priority: Option<Level>, list: seq<Row>) {
    && SortedBy(RowLe, list) && UniqueIds(list)
    && (forall r :: r in list <==> r in rows && Wanted(rules, fold, r, search, priority))
  }

  lemma MatchingIsWanted(rules: Rules, fold: char -> char, rows: seq<Row>, search: Option<string>,
          priority: Option<Level>, r: Row)
    requires LikeSearch.KeepsWildcards(fold) && InSync(rules, rows)
    ensures r in Matching(fold, rows, FiltersFor(search, priority))
            <==> r in rows && Wanted(rules, fold, r, search, priority)
  {
    MatchingSubset(fold, rows, FiltersFor(search, priority));
    if r in rows {
      FiltersMean(rules, fold, r, search, priority);
    }
  }

  lemma SameMembers(a: seq<Row>, b: seq<Row>, r: Row)
    requires multiset(a) == multiset(b)
    ensures r in a <==> r in b
  {
    assert r in a <==> r in multiset(a);
    assert r in b <==> r in multiset(b);
  }

  /** The list behind the pages: the wanted rows, each once, in order. */
  lemma SortedWanted(rules: Rules, fold: char -> char, rows: seq<Row>, search: Option<string>, priority: Option<Level>)
    requires LikeSearch.KeepsWildcards(fold) && InSync(rules, rows) && UniqueIds(rows)
    ensures WantedList(rules, fold, rows, search, priority,
            Sort(RowLe, Matching(fold, rows, FiltersFor(search, priority))))
  {
    var filters := FiltersFor(search, priority);
    var matching := Matching(fold, rows, filters);
    var list := Sort(RowLe, matching);
    forall r
      ensures r in list <==> r in rows && Wanted(rules, fold, r, search, priority)
    {
      SameMembers(list, matching, r);
      MatchingIsWanted(rules, fold, rows, search, priority, r);
    }
    MatchingSubset(fold, rows, filters);
    OneArrangement(fold, rows, filters, list);
    NoRepeats(rows, list);
  }

  /** The pages skip = 0, limit, 2*limit, ... fetched by separate queries, as far as the first
      `total` says there are rows. */
  ghost predicate Fetched(matching: seq<Row>, limit: nat, pages: seq<seq<Row>>, totals: seq<nat>) {
    && |pages| == |totals| > 0 && Offset(limit, |pages|) >= totals[0]
    && forall n :: 0 <= n < |pages| ==> Answers(matching, Offset(limit, n), limit, pages[n], totals[n])
  }

  lemma PagesOfOneList(matching: seq<Row>, list: seq<Row>, limit: nat, pages: seq<seq<Row>>, totals: seq<nat>)
    requires forall l :: Arranged(l, matching) ==> l == list
    requires Fetched(matching, limit, pages, totals)
    ensures Concat(pages) == list && forall n :: 0 <= n < |totals| ==> totals[n] == |list|
  {
    forall n | 0 <= n < |pages|
      ensures pages[n] == Slice(list, Offset(limit, n), limit) && totals[n] == |list|
    {
      var l :| Arranged(l, matching) && pages[n] == Slice(l, Offset(limit, n), limit) && totals[n] == |l|;
    }
    SlicesConcat(list, limit, pages);
    assert totals[0] == |list|;
  }

  /** No row is shown above one of a higher level. */
  ghost predicate LevelsNeverRise(rules: Rules, list: seq<Row>) {
    forall i, j :: 0 <= i < j < |list| ==>
      var above, below := PriorityLevel(Score(rules, list[i].fields)), PriorityLevel(Score(rules, list[j].fields));
      (below == Hot ==> above == Hot) && (above == Low ==> below == Low)
  }

  /** In sync, the stored order is the displayed one. */
  lemma DisplayedOrder(rules: Rules, fold: char -> char, rows: seq<Row>, search: Option<string>,
          priority: Option<Level>, list: seq<Row>)
    requires InSync(rules, rows) && WantedList(rules, fold, rows, search, priority, list)
    ensures Descends(DisplayedScore(rules), list) && LevelsNeverRise(rules, list)
  {
    SortedDescends(list);
    var shown := DisplayedScore(rules);
    forall i | 0 <= i < |list| ensures StoredScore(list[i]) == shown(list[i]) {
      assert list[i] in list;
      var k :| 0 <= k < |rows| && rows[k] == list[i];
      assert RowInSync(rules, rows[k]);
    }
    forall i, j | 0 <= i < j < |list| ensures Precedes(shown, list[i], list[j]) {
      assert Precedes(StoredScore, list[i], list[j]);
    }
  }

  /** For a fixed corpus, pages fetched by separate queries concatenate without gaps or repetitions
      to exactly the wanted rows, and `total` is their number every time. Read through the pages, the
      displayed scores never rise, equal ones come by age and then by id, and so no level rises. */
  lemma PagesCoverTheList(rules: Rules, fold: char -> char, rows: seq<Row>, search: Option<string>,
          priority: Option<Level>, limit: nat, pages: seq<seq<Row>>, totals: seq<nat>)
    requires LikeSearch.KeepsWildcards(fold) && InSync(rules, rows) && UniqueIds(rows)
    requires Fetched(Matching(fold, rows, FiltersFor(search, priority)), limit, pages, totals)
    ensures WantedList(rules, fold, rows, search, priority, Concat(pages))
    ensures forall n :: 0 <= n < |totals| ==> totals[n] == |Concat(pages)|
    ensures Descends(DisplayedScore(rules), Concat(pages)) && LevelsNeverRise(rules, Concat(pages))
  {
    var filters := FiltersFor(search, priority);
    var matching := Matching(fold, rows, filters);
    forall l | Arranged(l, matching)
      ensures l == Sort(RowLe, matching)
    {
      OneArrangement(fold, rows, filters, l);
    }
    PagesOfOneList(matching, Sort(RowLe, matching), limit, pages, totals);
    SortedWanted(rules, fold, rows, search, priority);
    DisplayedOrder(rules, fold, rows, search, priority, Concat(pages));
  }

  /** A list drawn from rows with unique ids has unique ids. */
  lemma NoRepeats(rows: seq<Row>, list: seq<Row>)
    requires UniqueIds(rows) && multiset(list) <= multiset(rows)
    ensures UniqueIds(list)
  {
    forall i, j | 0 <= i < j < |list|
      ensures list[i].id != list[j].id
    {
      if list[i].id == list[j].id {
        assert list[i] in multiset(rows) && list[j] in multiset(rows);
        var a :| 0 <= a < |rows| && rows[a] == list[i];
        var b :| 0 <= b < |rows| && rows[b] == list[j];
        assert a == b;
        TwiceInMultiset(list, i, j);
        OnceInMultiset(rows, a);
      }
    }
  }

  lemma TwiceInMultiset(list: seq<Row>, i: nat, j: nat)
    requires i < j < |list| && list[i] == list[j]
    ensures multiset(list)[list[i]] >= 2
  {
    assert list == list[..i + 1] + list[i + 1..];
    assert list[i] in list[..i + 1] && list[i + 1..][j - i - 1] == list[j];
    assert multiset(list) == multiset(list[..i + 1]) + multiset(list[i + 1..]);
  }

  lemma OnceInMultiset(rows: seq<Row>, a: nat)
    requires UniqueIds(rows) && a < |rows|
    ensures multiset(rows)[rows[a]] == 1
  {
    assert rows == rows[..a] + [rows[a]] + rows[a + 1..];
    assert rows[a] !in rows[..a] && rows[a] !in rows[a + 1..];
  }
}
