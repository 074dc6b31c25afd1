/**
 The materialized score column: written from the object in memory on every ORM insert and update, and
 read by the database for filtering and ordering. An update reads its row without a lock and later
 writes only the columns that differ from what it read.
 */
module ScoreSync {
  import opened Wrappers

  datatype Level = Hot | Medium | Low

  const HOT_THRESHOLD := 70
  const MEDIUM_THRESHOLD := 40
  const MIN_SCORE := 0
  const MAX_SCORE := 100

  /** The searched columns, and every other one by name; None is NULL. */
  datatype Fields = Fields(
    firstName: string, lastName: string, contactData: string, interestedProduct: string, businessInfo: string,
    others: map<string, Option<string>>)

  datatype Row = Row(id: nat, createdAt: int, fields: Fields, priorityScore: int)

  /** Sum of the points of the reasons that apply; the point tables are a parameter. */
  type Rules = Fields -> int

  function Score(rules: Rules, f: Fields): int {
    var raw := rules(f);
    var capped := if raw < MAX_SCORE then raw else MAX_SCORE;
    if capped > MIN_SCORE then capped else MIN_SCORE
  }

  function PriorityLevel(score: int): Level {
    if score >= HOT_THRESHOLD then Hot else if score >= MEDIUM_THRESHOLD then Medium else Low
  }

  function PriorityScoreBounds(level: Level): (int, int) {
    match level
    case Hot => (HOT_THRESHOLD, MAX_SCORE)
    case Medium => (MEDIUM_THRESHOLD, HOT_THRESHOLD - 1)
    case Low => (MIN_SCORE, MEDIUM_THRESHOLD - 1)
  }

  /** The bands cut 0..100 exactly where the level changes. */
  lemma BandIsLevel(rules: Rules, f: Fields, level: Level)
    ensures var s, (low, high) := Score(rules, f), PriorityScoreBounds(level);
            MIN_SCORE <= s <= MAX_SCORE && (low <= s <= high <==> PriorityLevel(s) == level)
  {
  }

  function Distance(a: int, b: int): nat {
    if a < b then b - a else a - b
  }

  /** The score is the sum of the points, or where that lies outside 0..100 the nearer end. */
  lemma ScoreIsNearest(rules: Rules, f: Fields, x: int)
    requires 0 <= x <= 100
    ensures 0 <= Score(rules, f) <= 100
    ensures Distance(Score(rules, f), rules(f)) <= Distance(x, rules(f))
  {
  }

  /** Hot from 70 on, low below 40. */
  lemma LevelsAre(score: int)
    ensures (PriorityLevel(score) == Hot <==> score >= 70) && (PriorityLevel(score) == Low <==> score < 40)
  {
  }

  // --- Patches ----------------------------------------------------------

  /** The fields a PATCH names. */
  datatype Patch = Patch(
    firstName: Option<string>, lastName: Option<string>, contactData: Option<string>,
    interestedProduct: Option<string>, businessInfo: Option<string>, others: map<string, Option<string>>)

  const NOTHING := Patch(None, None, None, None, None, map[])

  function Or<T>(o: Option<T>, old_: T): T {
    match o case Some(v) => v case None => old_
  }

  function ApplyPatch(f: Fields, p: Patch): Fields {
    Fields(Or(p.firstName, f.firstName), Or(p.lastName, f.lastName), Or(p.contactData, f.contactData),
           Or(p.interestedProduct, f.interestedProduct), Or(p.businessInfo, f.businessInfo), f.others + p.others)
  }

  /** What a patch names has the patch's value, and what it does not name has the old one. */
  predicate Took<T(==)>(after: T, before: T, patch: Option<T>) {
    match patch case Some(v) => after == v case None => after == before
  }

  lemma PatchSetsWhatItNames(f: Fields, p: Patch)
    ensures var g := ApplyPatch(f, p);
            && Took(g.firstName, f.firstName, p.firstName) && Took(g.lastName, f.lastName, p.lastName)
            && Took(g.contactData, f.contactData, p.contactData)
            && Took(g.interestedProduct, f.interestedProduct, p.interestedProduct)
            && Took(g.businessInfo, f.businessInfo, p.businessInfo)
            && g.others.Keys == f.others.Keys + p.others.Keys
            && forall c :: c in g.others ==> g.others[c] == if c in p.others then p.others[c] else f.others[c]
  {
  }

  function Changed<T(==)>(o: Option<T>, old_: T): Option<T> {
    if o == Some(old_) then None else o
  }

  /** The columns whose value differs from the row that was read. */
  function Delta(f: Fields, p: Patch): Patch {
    Patch(Changed(p.firstName, f.firstName), Changed(p.lastName, f.lastName), Changed(p.contactData, f.contactData),
          Changed(p.interestedProduct, f.interestedProduct), Changed(p.businessInfo, f.businessInfo),
          map c | c in p.others && !(c in f.others && f.others[c] == p.others[c]) :: p.others[c])
  }

  lemma DeltaIsPatch(f: Fields, p: Patch)
    ensures ApplyPatch(f, Delta(f, p)) == ApplyPatch(f, p)
    ensures ApplyPatch(f, p) == f <==> Delta(f, p) == NOTHING
  {
    assert ApplyPatch(f, Delta(f, p)).others == ApplyPatch(f, p).others;
    if ApplyPatch(f, p) == f {
      forall c | c in p.others ensures c in f.others && f.others[c] == p.others[c] {
        assert (f.others + p.others)[c] == p.others[c];
      }
      assert Delta(f, p).others == map[];
    }
    if Delta(f, p) == NOTHING {
      forall c | c in p.others ensures c in f.others && f.others[c] == p.others[c] {
        assert c !in Delta(f, p).others;
      }
      assert f.others + p.others == f.others;
    }
  }

  // --- The table --------------------------------------------------------

  /** The row a request read, and the patch it set on the object in memory. */
  datatype Reading = Reading(row: Row, patch: Patch)

  datatype Table = Table(rows: seq<Row>, open: map<nat, Reading>)

  /** ORM statements; ids come from the table's sequence. */
  datatype Statement =
    | Create(row: Row)
    | Read(t: nat, id: nat, patch: Patch)   // get_application and the setattr loop, without a lock
    | Flush(t: nat)                          // before_update, UPDATE and COMMIT
    | Delete(id: nat)

  function Synced(rules: Rules, row: Row): Row {
    row.(priorityScore := Score(rules, row.fields))
  }

  /** The UPDATE of one request on the row as it is by then: the score is that of the object in memory,
      and is written only if it differs from the score that was read. */
  function Updated(rules: Rules, current: Row, r: Reading): Row {
    if r.patch == NOTHING then current
    else
      var score := Score(rules, ApplyPatch(r.row.fields, r.patch));
      current.(fields := ApplyPatch(current.fields, Delta(r.row.fields, r.patch)),
               priorityScore := if score != r.row.priorityScore then score else current.priorityScore)
  }

  function UpdateRows(rules: Rules, rows: seq<Row>, r: Reading): seq<Row> {
    seq(|rows|, i requires 0 <= i < |rows| => if rows[i].id == r.row.id then Updated(rules, rows[i], r) else rows[i])
  }

  function DeleteRow(rows: seq<Row>, id: nat): seq<Row> {
    if rows == [] then [] else (if rows[0].id == id then [] else [rows[0]]) + DeleteRow(rows[1..], id)
  }

  /** Where the row with this id is. */
  function Find(rows: seq<Row>, id: nat): Option<Row> {
    if rows == [] then None else if rows[0].id == id then Some(rows[0]) else Find(rows[1..], id)
  }

  function Exec(rules: Rules, table: Table, s: Statement): Table {
    match s
    case Create(row) =>
      if Find(table.rows, row.id).Some? then table else table.(rows := table.rows + [Synced(rules, row)])
    case Read(t, id, patch) =>
      if t in table.open || Find(table.rows, id).None? then table
      else table.(open := table.open[t := Reading(Find(table.rows, id).value, patch)])
    case Flush(t) =>
      if t !in table.open then table
      else Table(UpdateRows(rules, table.rows, table.open[t]), table.open - {t})
    case Delete(id) => table.(rows := DeleteRow(table.rows, id))
  }

  function ExecAll(rules: Rules, table: Table, statements: seq<Statement>): Table
    decreases |statements|
  {
    if statements == [] then table
    else Exec(rules, ExecAll(rules, table, statements[..|statements| - 1]), statements[|statements| - 1])
  }

  predicate RowInSync(rules: Rules, row: Row) {
    row.priorityScore == Score(rules, row.fields)
  }

  /** Every stored score is the score that is shown. */
  ghost predicate InSync(rules: Rules, rows: seq<Row>) {
    forall i :: 0 <= i < |rows| ==> RowInSync(rules, rows[i])
  }

  ghost predicate UniqueIds(rows: seq<Row>) {
    forall i, j :: 0 <= i < j < |rows| ==> rows[i].id != rows[j].id
  }

  lemma {:induction false} FindIs(rows: seq<Row>, id: nat)
    ensures Find(rows, id).Some? ==> Find(rows, id).value in rows && Find(rows, id).value.id == id
    ensures Find(rows, id).None? ==> forall i :: 0 <= i < |rows| ==> rows[i].id != id
  {
    if rows != [] {
      FindIs(rows[1..], id);
    }
  }

  // --- The table as an object -------------------------------------------

  class ApplicationsTable {
    const rules: Rules
    var rows: seq<Row>
    var open: map<nat, Reading>

    function Now(): Table
      reads this
    {
      Table(rows, open)
    }

    constructor (rules: Rules, rows: seq<Row>)
      ensures this.rules == rules && Now() == Table(rows, map[])
    {
      this.rules := rules;
      this.rows := rows;
      open := map[];
    }

    /** Migration 0004: the column starts as 0 everywhere and is overwritten row by row. */
    method AddScoreColumn()
      modifies this
      ensures |rows| == |old(rows)| && open == old(open)
      ensures forall i :: 0 <= i < |rows| ==> rows[i] == Synced(rules, old(rows)[i])
    {
      var before := rows;
      rows := seq(|before|, i requires 0 <= i < |before| => before[i].(priorityScore := 0));
      var n := 0;
      while n < |rows|
        invariant 0 <= n <= |rows| == |old(rows)| && open == old(open)
        invariant forall i :: 0 <= i < n ==> rows[i] == Synced(rules, old(rows)[i])
        invariant forall i :: n <= i < |rows| ==> rows[i] == old(rows)[i].(priorityScore := 0)
      {
        rows := rows[n := rows[n].(priorityScore := Score(rules, rows[n].fields))];
        n := n + 1;
      }
    }

    /** before_insert. */
    method Insert(row: Row)
      modifies this
      ensures Now() == Exec(rules, old(Now()), Create(row))
    {
      if Find(rows, row.id).None? {
        var target := row;
        target := target.(priorityScore := Score(rules, target.fields));
        rows := rows + [target];
      }
    }

    /** get_application and the setattr loop: nothing is written or locked yet. */
    method ReadForUpdate(t: nat, id: nat, patch: Patch) returns (found: bool)
      requires t !in open
      modifies this
      ensures Now() == Exec(rules, old(Now()), Read(t, id, patch))
      ensures found <==> Find(rows, id).Some?
    {
      var application := Find(rows, id);
      found := application.Some?;
      if found {
        open := open[t := Reading(application.value, patch)];
      }
    }

    /** before_update and the commit. */
    method Commit(t: nat)
      requires t in open
      modifies this
      ensures Now() == Exec(rules, old(Now()), Flush(t))
    {
      var r := open[t];
      open := open - {t};
      if r.patch == NOTHING {
        assert UpdateRows(rules, rows, r) == rows;
        return;
      }
      var target := r.row.(fields := ApplyPatch(r.row.fields, r.patch));
      target := target.(priorityScore := Score(rules, target.fields));
      var columns := Delta(r.row.fields, r.patch);
      var n := 0;
      while n < |rows|
        invariant 0 <= n <= |rows| == |old(rows)| && open == old(open) - {t}
        invariant forall i :: 0 <= i < n ==> rows[i] == UpdateRows(rules, old(rows), r)[i]
        invariant forall i :: n <= i < |rows| ==> rows[i] == old(rows)[i]
      {
        if rows[n].id == target.id {
          var changed := target.priorityScore != r.row.priorityScore;
          var score := if changed then target.priorityScore else rows[n].priorityScore;
          rows := rows[n := rows[n].(fields := ApplyPatch(rows[n].fields, columns), priorityScore := score)];
        }
        n := n + 1;
      }
    }

    /** update_application with nobody in between: the addressed row gets the patch and the score of
        the result, and no other row changes. */
    method UpdateApplication(t: nat, id: nat, patch: Patch) returns (found: bool)
      requires t !in open && InSync(rules, rows) && UniqueIds(rows)
      modifies this
      ensures found <==> Find(old(rows), id).Some?
      ensures |rows| == |old(rows)| && open == old(open)
      ensures forall i :: 0 <= i < |rows| ==>
                rows[i] == if old(rows)[i].id == id
                           then Synced(rules, old(rows)[i].(fields := ApplyPatch(old(rows)[i].fields, patch)))
                           else old(rows)[i]
    {
      FindIs(rows, id);
      found := ReadForUpdate(t, id, patch);
      if found {
        var row := open[t].row;
        Commit(t);
        forall i | 0 <= i < |rows| && old(rows)[i].id == id
          ensures rows[i] == Synced(rules, old(rows)[i].(fields := ApplyPatch(old(rows)[i].fields, patch)))
        {
          var k :| 0 <= k < |old(rows)| && old(rows)[k] == row;
          assert k == i;
          UndisturbedUpdate(rules, row, Reading(row, patch));
        }
      }
    }
  }

  // --- One update -------------------------------------------------------

  /** Nothing is written, or the row is as it was read, or it already is what is being written. */
  predicate Undisturbed(current: Fields, f: Fields, p: Patch) {
    Delta(f, p) == NOTHING || current == f || current == ApplyPatch(f, p)
  }

  lemma UndisturbedUpdate(rules: Rules, current: Row, r: Reading)
    requires RowInSync(rules, current) && RowInSync(rules, r.row) && Undisturbed(current.fields, r.row.fields, r.patch)
    ensures RowInSync(rules, Updated(rules, current, r))
    ensures current == r.row ==> Updated(rules, current, r).fields == ApplyPatch(current.fields, r.patch)
  {
    var f, p := r.row.fields, r.patch;
    DeltaIsPatch(f, p);
    AppliedTwice(f, Delta(f, p));
    AppliedNothing(current.fields);
    AppliedNothing(f);
  }

  lemma AppliedNothing(f: Fields)
    ensures ApplyPatch(f, NOTHING) == f
  {
    assert f.others + map[] == f.others;
  }

  lemma AppliedTwice(f: Fields, p: Patch)
    ensures ApplyPatch(ApplyPatch(f, p), p) == ApplyPatch(f, p)
  {
    assert f.others + p.others + p.others == f.others + p.others;
  }

  /** An update of a row `current` by a request that read `f`, both with their proper scores. */
  ghost predicate SyncAfter(rules: Rules, current: Fields, f: Fields, p: Patch) {
    var now, was := Row(0, 0, current, Score(rules, current)), Row(0, 0, f, Score(rules, f));
    RowInSync(rules, Updated(rules, now, Reading(was, p)))
  }

  /** The score stays in sync, whatever the point tables, if and only if nothing is written, or the row
      is as it was read, or it already is what is being written. */
  lemma SyncSurvivesExactlyWhenUndisturbed(current: Fields, f: Fields, p: Patch)
    ensures (forall rules: Rules :: SyncAfter(rules, current, f, p)) <==> Undisturbed(current, f, p)
  {
    if Undisturbed(current, f, p) {
      forall rules: Rules ensures SyncAfter(rules, current, f, p) {
        UndisturbedUpdate(rules, Row(0, 0, current, Score(rules, current)), Reading(Row(0, 0, f, Score(rules, f)), p));
      }
    } else {
      DeltaIsPatch(f, p);
      var merged, written := ApplyPatch(f, p), ApplyPatch(current, Delta(f, p));
      var special := if written == merged then current else merged;
      var rules: Rules := (g: Fields) => if g == special then MAX_SCORE else MIN_SCORE;
      assert !SyncAfter(rules, current, f, p);
    }
  }

  /** For given point tables: the written columns never matter to the score, ... */
  ghost predicate Blind(rules: Rules, delta: Patch) {
    forall g :: Score(rules, ApplyPatch(g, delta)) == Score(rules, g)
  }

  /** ... or they alone decide it. */
  ghost predicate Decided(rules: Rules, delta: Patch, score: int) {
    forall g :: Score(rules, ApplyPatch(g, delta)) == score
  }

  /** Whatever the row has become since it was read, the score stays in sync if and only if the written
      columns do not matter to the score, or change it and decide it alone. */
  lemma SafeAgainstAllExactlyWhen(rules: Rules, f: Fields, p: Patch)
    ensures (forall current :: SyncAfter(rules, current, f, p))
       <==> || Blind(rules, Delta(f, p))
            || (Score(rules, ApplyPatch(f, p)) != Score(rules, f)
                && Decided(rules, Delta(f, p), Score(rules, ApplyPatch(f, p))))
  {
    var d, merged := Delta(f, p), ApplyPatch(f, p);
    DeltaIsPatch(f, p);
    forall g ensures SyncAfter(rules, g, f, p) <==>
        if Score(rules, merged) != Score(rules, f) then Score(rules, ApplyPatch(g, d)) == Score(rules, merged)
        else Score(rules, ApplyPatch(g, d)) == Score(rules, g)
    {
      AppliedNothing(g);
      AppliedNothing(f);
    }
  }

  // --- Runs -------------------------------------------------------------

  ghost predicate ReadsInSync(rules: Rules, table: Table) {
    forall t :: t in table.open ==> RowInSync(rules, table.open[t].row)
  }

  /** The statement is not an update that meets a row changed since it was read. */
  ghost predicate Calm(table: Table, s: Statement) {
    s.Flush? && s.t in table.open ==>
      forall row :: row in table.rows && row.id == table.open[s.t].row.id ==>
        Undisturbed(row.fields, table.open[s.t].row.fields, table.open[s.t].patch)
  }

  ghost predicate AllCalm(rules: Rules, table: Table, statements: seq<Statement>) {
    forall n :: 0 <= n < |statements| ==> Calm(ExecAll(rules, table, statements[..n]), statements[n])
  }

  lemma {:induction false} DeleteKeeps(rules: Rules, rows: seq<Row>, id: nat)
    ensures forall r :: r in DeleteRow(rows, id) <==> r in rows && r.id != id
    ensures InSync(rules, rows) ==> InSync(rules, DeleteRow(rows, id))
    ensures UniqueIds(rows) ==> UniqueIds(DeleteRow(rows, id))
  {
    if rows != [] {
      DeleteKeeps(rules, rows[1..], id);
      var d := DeleteRow(rows[1..], id);
      if UniqueIds(rows) {
        forall j | 0 <= j < |d|
          ensures d[j].id != rows[0].id
        {
          assert d[j] in rows[1..];
        }
      }
    }
  }

  /** Ids stay unique whatever happens. */
  lemma ExecKeepsIds(rules: Rules, table: Table, s: Statement)
    requires UniqueIds(table.rows)
    ensures UniqueIds(Exec(rules, table, s).rows)
  {
    match s
    case Create(row) => FindIs(table.rows, row.id);
    case Read(_, _, _) =>
    case Flush(_) =>
    case Delete(id) => DeleteKeeps(rules, table.rows, id);
  }

  lemma FlushKeeps(rules: Rules, table: Table, t: nat)
    requires InSync(rules, table.rows) && ReadsInSync(rules, table) && t in table.open && Calm(table, Flush(t))
    ensures InSync(rules, UpdateRows(rules, table.rows, table.open[t]))
  {
    var r := table.open[t];
    forall i | 0 <= i < |table.rows| ensures RowInSync(rules, UpdateRows(rules, table.rows, r)[i]) {
      if table.rows[i].id == r.row.id {
        assert table.rows[i] in table.rows;
        UndisturbedUpdate(rules, table.rows[i], r);
      }
    }
  }

  lemma ExecKeepsSync(rules: Rules, table: Table, s: Statement)
    requires InSync(rules, table.rows) && ReadsInSync(rules, table) && Calm(table, s)
    ensures InSync(rules, Exec(rules, table, s).rows) && ReadsInSync(rules, Exec(rules, table, s))
  {
    match s
    case Create(row) =>
    case Read(t, id, _) =>
      FindIs(table.rows, id);
    case Flush(t) =>
      if t in table.open {
        FlushKeeps(rules, table, t);
      }
    case Delete(id) => DeleteKeeps(rules, table.rows, id);
  }

  /** After the backfill and any run of ORM statements in which no update meets a row changed since it
      was read, the stored score is the computed one in every row. */
  lemma {:induction false} AlwaysInSync(rules: Rules, table: Table, statements: seq<Statement>)
    requires InSync(rules, table.rows) && ReadsInSync(rules, table) && UniqueIds(table.rows)
    requires AllCalm(rules, table, statements)
    ensures var after := ExecAll(rules, table, statements);
            InSync(rules, after.rows) && ReadsInSync(rules, after) && UniqueIds(after.rows)
    decreases |statements|
  {
    if statements != [] {
      var init, last := statements[..|statements| - 1], statements[|statements| - 1];
      forall n | 0 <= n < |init| ensures Calm(ExecAll(rules, table, init[..n]), init[n]) {
        assert init[..n] == statements[..n];
      }
      AlwaysInSync(rules, table, init);
      ExecKeepsSync(rules, ExecAll(rules, table, init), last);
      ExecKeepsIds(rules, ExecAll(rules, table, init), last);
    }
  }

  // --- Two patches of one row ------------------------------------------

  function With(f: Fields, column: string, value: Option<string>): Fields {
    f.(others := f.others[column := value])
  }

  /** A PATCH that names one column. */
  datatype Single = Single(column: string, value: Option<string>)

  function AsPatch(s: Single): Patch {
    NOTHING.(others := map[s.column := s.value])
  }

  function Set(f: Fields, s: Single): Fields {
    With(f, s.column, s.value)
  }

  lemma SingleSets(f: Fields, s: Single)
    ensures ApplyPatch(f, AsPatch(s)) == Set(f, s)
  {
    assert f.others + map[s.column := s.value] == f.others[s.column := s.value];
  }

  predicate Agree(f: Fields, g: Fields, column: string) {
    (column in f.others <==> column in g.others) && (column in f.others ==> f.others[column] == g.others[column])
  }

  lemma SingleWrites(current: Fields, f: Fields, s: Single)
    requires Agree(current, f, s.column)
    ensures ApplyPatch(current, Delta(f, AsPatch(s))) == Set(current, s)
  {
    var written := Delta(f, AsPatch(s)).others;
    if s.column in f.others && f.others[s.column] == s.value {
      assert written == map[];
    } else {
      assert written == map[s.column := s.value];
    }
    assert current.others + written == current.others[s.column := s.value];
  }

  /** The row is created, both patches read it, and then both write. */
  function Race(row: Row, a: Single, b: Single): seq<Statement> {
    [Create(row), Read(1, row.id, AsPatch(a)), Read(2, row.id, AsPatch(b)), Flush(1), Flush(2)]
  }

  /** Both columns arrive; the score is that of the second patch on the row it read, unless that is the
      score it read. */
  function Raced(rules: Rules, row: Row, a: Single, b: Single): Row {
    var second := Score(rules, Set(row.fields, b));
    row.(fields := Set(Set(row.fields, a), b),
         priorityScore := if second != Score(rules, row.fields) then second else Score(rules, Set(row.fields, a)))
  }

  lemma RaceIs(rules: Rules, row: Row, a: Single, b: Single)
    requires a.column != b.column
    ensures ExecAll(rules, Table([], map[]), Race(row, a, b)) == Table([Raced(rules, row, a, b)], map[])
  {
    FiveStatements(rules, Table([], map[]), Create(row), Read(1, row.id, AsPatch(a)), Read(2, row.id, AsPatch(b)),
                   Flush(1), Flush(2));
    BothReadTheRow(rules, row, a, b);
    BothWriteTheRow(rules, Synced(rules, row), a, b);
  }

  lemma FiveStatements(rules: Rules, table: Table, s1: Statement, s2: Statement, s3: Statement, s4: Statement,
          s5: Statement)
    ensures ExecAll(rules, table, [s1, s2, s3, s4, s5])
         == Exec(rules, Exec(rules, Exec(rules, Exec(rules, Exec(rules, table, s1), s2), s3), s4), s5)
  {
    ExecMore(rules, table, [], s1);
    ExecMore(rules, table, [s1], s2);
    ExecMore(rules, table, [s1, s2], s3);
    ExecMore(rules, table, [s1, s2, s3], s4);
    ExecMore(rules, table, [s1, s2, s3, s4], s5);
    assert [] + [s1] == [s1] && [s1] + [s2] == [s1, s2] && [s1, s2] + [s3] == [s1, s2, s3];
    assert [s1, s2, s3] + [s4] == [s1, s2, s3, s4] && [s1, s2, s3, s4] + [s5] == [s1, s2, s3, s4, s5];
  }

  lemma ExecMore(rules: Rules, table: Table, statements: seq<Statement>, s: Statement)
    ensures ExecAll(rules, table, statements + [s]) == Exec(rules, ExecAll(rules, table, statements), s)
  {
    assert (statements + [s])[..|statements|] == statements;
  }

  function BothReadings(row: Row, a: Single, b: Single): Table {
    Table([row], map[1 := Reading(row, AsPatch(a)), 2 := Reading(row, AsPatch(b))])
  }

  lemma BothReadTheRow(rules: Rules, row: Row, a: Single, b: Single)
    ensures Exec(rules, Exec(rules, Exec(rules, Table([], map[]), Create(row)), Read(1, row.id, AsPatch(a))),
                 Read(2, row.id, AsPatch(b)))
         == BothReadings(Synced(rules, row), a, b)
  {
    var start := Synced(rules, row);
    var t1 := Exec(rules, Table([], map[]), Create(row));
    assert t1.rows == [start];
    var t2 := Exec(rules, t1, Read(1, row.id, AsPatch(a)));
    assert t2 == Table([start], map[1 := Reading(start, AsPatch(a))]);
  }

  lemma BothWriteTheRow(rules: Rules, row: Row, a: Single, b: Single)
    requires a.column != b.column && RowInSync(rules, row)
    ensures Exec(rules, Exec(rules, BothReadings(row, a, b), Flush(1)), Flush(2))
         == Table([Raced(rules, row, a, b)], map[])
  {
    var first := Updated(rules, row, Reading(row, AsPatch(a)));
    WritesOn(rules, row, row, a);
    WritesOn(rules, first, row, b);
    var t1 := Exec(rules, BothReadings(row, a, b), Flush(1));
    assert t1 == Table([first], map[2 := Reading(row, AsPatch(b))]);
    assert Exec(rules, t1, Flush(2)).rows == [Raced(rules, row, a, b)];
  }

  lemma WritesOn(rules: Rules, current: Row, row: Row, s: Single)
    requires Agree(current.fields, row.fields, s.column)
    ensures var score := Score(rules, Set(row.fields, s));
            Updated(rules, current, Reading(row, AsPatch(s))) ==
            current.(fields := Set(current.fields, s),
                     priorityScore := if score != row.priorityScore then score else current.priorityScore)
  {
    SingleSets(row.fields, s);
    SingleWrites(current.fields, row.fields, s);
    assert s.column in AsPatch(s).others;
  }

  // --- The score that a race leaves ------------------------------------

  const DEADLINE_POINTS: map<string, int> := map[
    "как можно скорее" := 25, "в течение 3 дней" := 20, "в течение недели" := 12, "в течение 2 недель" := 6,
    "в течение месяца" := 2, "дата не принципиальна" := 0, "срочно (1–3 дня)" := 20, "гибкий срок" := 0]

  const TASK_SCOPE_POINTS: map<string, int> := map[
    "обслуживание автопарка" := 18, "регулярный уход" := 12, "комплексное обслуживание" := 10,
    "нужна рекомендация специалиста" := 4, "разовая услуга" := 3]

  const DEADLINE := "deadline"
  const TASK_SCOPE := "task_scope"

  function TablePoints(points: map<string, int>, key: string): int {
    if key in points && points[key] > 0 then points[key] else 0
  }

  /** What a column reads as after `normalize`, which strips and casefolds; the columns are NOT NULL. */
  function Key(normalize: string -> string, f: Fields, column: string): string {
    if column in f.others && f.others[column].Some? then normalize(f.others[column].value) else ""
  }

  /** The points of the two columns by their tables, and the points of everything else. */
  function Points(normalize: string -> string, rest: Rules): Rules {
    (f: Fields) =>
      TablePoints(DEADLINE_POINTS, Key(normalize, f, DEADLINE))
      + TablePoints(TASK_SCOPE_POINTS, Key(normalize, f, TASK_SCOPE))
      + rest(f)
  }

  /** Of the two columns, everything else only asks whether they are filled. */
  ghost predicate Elsewhere(normalize: string -> string, rest: Rules) {
    forall f, column, value {:trigger rest(With(f, column, Some(value)))} ::
      (column == DEADLINE || column == TASK_SCOPE) && Key(normalize, f, column) != "" && normalize(value) != "" ==>
        rest(With(f, column, Some(value))) == rest(f)
  }

  predicate Filled(normalize: string -> string, f: Fields) {
    Key(normalize, f, DEADLINE) != "" && Key(normalize, f, TASK_SCOPE) != ""
  }

  lemma PointsOfCombination(normalize: string -> string, rest: Rules, f: Fields, deadline: string, scope: string)
    requires Elsewhere(normalize, rest) && Filled(normalize, f) && normalize(deadline) != "" && normalize(scope) != ""
    ensures var d, t := Single(DEADLINE, Some(deadline)), Single(TASK_SCOPE, Some(scope));
            var d0, d1 := TablePoints(DEADLINE_POINTS, Key(normalize, f, DEADLINE)),
                          TablePoints(DEADLINE_POINTS, normalize(deadline));
            var t0, t1 := TablePoints(TASK_SCOPE_POINTS, Key(normalize, f, TASK_SCOPE)),
                          TablePoints(TASK_SCOPE_POINTS, normalize(scope));
            var rules := Points(normalize, rest);
            && rules(f) == d0 + t0 + rest(f)
            && rules(Set(f, d)) == d1 + t0 + rest(f)
            && rules(Set(f, t)) == d0 + t1 + rest(f)
            && rules(Set(Set(f, d), t)) == d1 + t1 + rest(f)
  {
    var g := With(f, DEADLINE, Some(deadline));
    assert rest(g) == rest(f);
    assert rest(With(f, TASK_SCOPE, Some(scope))) == rest(f);
    assert rest(With(g, TASK_SCOPE, Some(scope))) == rest(g);
  }

  function Larger(a: int, b: int): int {
    if a < b then b else a
  }

  /** Two patches, one of the deadline and one of the task scope, both read before either is written,
      on a row whose points stay within the cap: the stored score is the computed one if and only if one
      of the two columns keeps its points. Otherwise the first patch is missing from the score. */
  lemma RaceLosesExactlyWhenBothScore(normalize: string -> string, rest: Rules, row: Row, deadline: string,
          scope: string)
    requires Elsewhere(normalize, rest) && Filled(normalize, row.fields)
    requires normalize(deadline) != "" && normalize(scope) != ""
    requires var d0, d1 := TablePoints(DEADLINE_POINTS, Key(normalize, row.fields, DEADLINE)),
                           TablePoints(DEADLINE_POINTS, normalize(deadline));
             var t0, t1 := TablePoints(TASK_SCOPE_POINTS, Key(normalize, row.fields, TASK_SCOPE)),
                           TablePoints(TASK_SCOPE_POINTS, normalize(scope));
             0 <= rest(row.fields) <= MAX_SCORE - Larger(d0, d1) - Larger(t0, t1)
    ensures var rules := Points(normalize, rest);
            var d0, d1 := TablePoints(DEADLINE_POINTS, Key(normalize, row.fields, DEADLINE)),
                          TablePoints(DEADLINE_POINTS, normalize(deadline));
            var t0, t1 := TablePoints(TASK_SCOPE_POINTS, Key(normalize, row.fields, TASK_SCOPE)),
                          TablePoints(TASK_SCOPE_POINTS, normalize(scope));
            var race := Race(row, Single(DEADLINE, Some(deadline)), Single(TASK_SCOPE, Some(scope)));
            var after := ExecAll(rules, Table([], map[]), race);
            && |after.rows| == 1 && Score(rules, after.rows[0].fields) == d1 + t1 + rest(row.fields)
            && after.rows[0].priorityScore == (if t0 != t1 then d0 + t1 else d1 + t0) + rest(row.fields)
            && (InSync(rules, after.rows) <==> d0 == d1 || t0 == t1)
  {
    var d, t := Single(DEADLINE, Some(deadline)), Single(TASK_SCOPE, Some(scope));
    RaceIs(Points(normalize, rest), row, d, t);
    PointsOfCombination(normalize, rest, row.fields, deadline, scope);
  }

  /** A row with no hurry and a single service, patched to urgent and to a whole fleet: 18 more points
      are stored where 43 are displayed, and the levels differ if a threshold lies in between. */
  lemma RacingPatchesLoseTheScore(normalize: string -> string, rest: Rules, row: Row, deadline: string, scope: string)
    requires Elsewhere(normalize, rest) && 0 <= rest(row.fields) <= MAX_SCORE - 43
    requires Key(normalize, row.fields, DEADLINE) == "дата не принципиальна"
    requires Key(normalize, row.fields, TASK_SCOPE) == "разовая услуга"
    requires normalize(deadline) == "как можно скорее" && normalize(scope) == "обслуживание автопарка"
    ensures var rules, other := Points(normalize, rest), rest(row.fields);
            var race := Race(row, Single(DEADLINE, Some(deadline)), Single(TASK_SCOPE, Some(scope)));
            var rows := ExecAll(rules, Table([], map[]), race).rows;
            && |rows| == 1 && rows[0].priorityScore == other + 18 && Score(rules, rows[0].fields) == other + 43
            && (PriorityLevel(other + 18) != PriorityLevel(other + 43) <==>
                  || other + 18 < MEDIUM_THRESHOLD <= other + 43
                  || other + 18 < HOT_THRESHOLD <= other + 43)
  {
    RaceLosesExactlyWhenBothScore(normalize, rest, row, deadline, scope);
  }
}
