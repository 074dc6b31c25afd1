/**
 Migrations 0002 to 0004 as schema transformers, and why a database the legacy check accepted is
 one the startup guard lets the application start on.
 */
module Migrations {
  import opened Wrappers
  import opened SchemaIntrospect
  import opened SchemaSpecs

  type Tables = map<TableName, LiveTable>

  // --- DDL statements; None when PostgreSQL refuses ---------------------

  predicate HasColumns(t: LiveTable, columns: seq<ColumnName>) {
    forall c :: c in columns ==> c in t.columns
  }

  /** A foreign key needs its own columns, and a unique key on the columns it references. */
  predicate Referable(ts: Tables, t: LiveTable, fk: LiveForeignKey) {
    && HasColumns(t, fk.columns)
    && fk.table in ts
    && (ts[fk.table].primaryKey == ToSet(fk.refColumns) || ToSet(fk.refColumns) in ts[fk.table].uniques)
  }

  function CreatedTable(ts: Tables, name: TableName, t: LiveTable): Option<Tables> {
    if name !in ts && forall fk :: fk in t.foreignKeys ==> Referable(ts, t, fk) then Some(ts[name := t]) else None
  }

  function AddedColumn(ts: Tables, name: TableName, column: ColumnName, c: LiveColumn): Option<Tables> {
    if name in ts && column !in ts[name].columns
    then Some(ts[name := ts[name].(columns := ts[name].columns[column := c])])
    else None
  }

  /** `at` is where reflection happens to list the new key. */
  function AddedForeignKey(ts: Tables, name: TableName, fk: LiveForeignKey, at: nat): Option<Tables> {
    if name in ts && Referable(ts, ts[name], fk) && at <= |ts[name].foreignKeys|
    then
      var fks := ts[name].foreignKeys;
      Some(ts[name := ts[name].(foreignKeys := fks[..at] + [fk] + fks[at..])])
    else None
  }

  // --- What the migrations add ------------------------------------------

  const INTEGER_TYPE := LiveType(IntegerType)
  const HASH_TYPE := LiveType(VarcharType, length := Some(64))
  const TIMESTAMP_TYPE := LiveType(TimestampType, timezone := true)
  const NOW := Some("now()")

  const CASCADE_KEY := LiveForeignKey([ApplicationId], None, Applications, [Id], Some("CASCADE"))
  const SERVICE_KEY := LiveForeignKey([ServiceId], None, AdminSettings, [Id], None)
  const SERVICE_COLUMN := LiveColumn(INTEGER_TYPE, true, None)
  const SCORE_COLUMN := LiveColumn(INTEGER_TYPE, false, Some("0"))

  /** The sequence PostgreSQL creates for a new id column, under a name it chooses. */
  datatype NewId = NewId(name: string, oid: nat)

  function SerialColumn(id: NewId): LiveColumn {
    LiveColumn(INTEGER_TYPE, false, Some(NEXTVAL_HEAD + Doubled(id.name) + NEXTVAL_TAIL))
  }

  function NewSequence(id: NewId): Sequence {
    Sequence(id.oid, "integer", 1, false, 1, false, true)
  }

  function CapabilityTable(id: NewId): LiveTable {
    LiveTable(
      map[Id := SerialColumn(id),
          ApplicationId := LiveColumn(INTEGER_TYPE, false, None),
          CapabilityHash := LiveColumn(HASH_TYPE, false, None),
          UsedAt := LiveColumn(TIMESTAMP_TYPE, true, None),
          CreatedAt := LiveColumn(TIMESTAMP_TYPE, false, NOW)],
      {Id}, {{ApplicationId}, {CapabilityHash}}, [CASCADE_KEY], map[Id := NewSequence(id)], map[])
  }

  function KeyTable(id: NewId): LiveTable {
    LiveTable(
      map[Id := SerialColumn(id),
          IdempotencyKeyHash := LiveColumn(HASH_TYPE, false, None),
          RequestHash := LiveColumn(HASH_TYPE, false, None),
          ApplicationId := LiveColumn(INTEGER_TYPE, true, None),
          CreatedAt := LiveColumn(TIMESTAMP_TYPE, false, NOW)],
      {Id}, {{IdempotencyKeyHash}}, [CASCADE_KEY], map[Id := NewSequence(id)], map[])
  }

  function Upgraded0002(ts: Tables, id: NewId): Option<Tables> {
    CreatedTable(ts, BehaviorCapabilities, CapabilityTable(id))
  }

  function Upgraded0003(ts: Tables, id: NewId, at: nat): Option<Tables> {
    match AddedColumn(ts, Applications, ServiceId, SERVICE_COLUMN)
    case None => None
    case Some(t1) =>
      match AddedForeignKey(t1, Applications, SERVICE_KEY, at)
      case None => None
      case Some(t2) => CreatedTable(t2, IdempotencyKeys, KeyTable(id))
  }

  function Upgraded0004(ts: Tables): Option<Tables> {
    AddedColumn(ts, Applications, PriorityScore, SCORE_COLUMN)
  }

  /** alembic upgrade head from the legacy baseline. */
  function UpgradedToHead(ts: Tables, id2: NewId, id3: NewId, at: nat): Option<Tables> {
    match Upgraded0002(ts, id2)
    case None => None
    case Some(t2) =>
      match Upgraded0003(t2, id3, at)
      case None => None
      case Some(t3) => Upgraded0004(t3)
  }

  // --- The chain of revisions -------------------------------------------

  /** A revision and the one it has to follow. */
  datatype Revision = Revision(id: string, down: Option<string>)

  const CHAIN := [
    Revision("0001_legacy_baseline", None),
    Revision("0002_stage1a_capability", Some("0001_legacy_baseline")),
    Revision("0003_stage1b_service_idemp", Some("0002_stage1a_capability")),
    Revision("0004_stage4_priority_score", Some("0003_stage1b_service_idemp"))]

  /** The revisions still to run at a recorded version; None when the version is not one of the chain. */
  function Pending(chain: seq<Revision>, version: Option<string>): Option<seq<Revision>> {
    if chain == [] then None
    else if chain[0].down == version then Some(chain)
    else if |chain| == 1 && version == Some(chain[0].id) then Some([])
    else Pending(chain[1..], version)
  }

  /** One revision; `baseline` stands for the first one, which creates the legacy tables. */
  function RevisionRun(baseline: Tables -> Option<Tables>, r: Revision, ts: Tables, id2: NewId, id3: NewId, at: nat)
    : Option<Tables>
  {
    if r.down.None? then baseline(ts)
    else if r.id == "0002_stage1a_capability" then Upgraded0002(ts, id2)
    else if r.id == "0003_stage1b_service_idemp" then Upgraded0003(ts, id3, at)
    else Upgraded0004(ts)
  }

  function RevisionsRun(baseline: Tables -> Option<Tables>, todo: seq<Revision>, ts: Tables, id2: NewId, id3: NewId,
          at: nat): Option<Tables>
  {
    if todo == [] then Some(ts)
    else match RevisionRun(baseline, todo[0], ts, id2, id3, at)
      case None => None
      case Some(next) => RevisionsRun(baseline, todo[1..], next, id2, id3, at)
  }

  /** alembic upgrade head: whatever is pending at the recorded version, in order. */
  function UpgradedFrom(baseline: Tables -> Option<Tables>, ts: Tables, version: Option<string>, id2: NewId, id3: NewId,
          at: nat): Option<Tables>
  {
    match Pending(CHAIN, version)
    case None => None
    case Some(todo) => RevisionsRun(baseline, todo, ts, id2, id3, at)
  }

  lemma ThreeRevisions(baseline: Tables -> Option<Tables>, a: Revision, b: Revision, c: Revision, ts: Tables,
          id2: NewId, id3: NewId, at: nat)
    ensures RevisionsRun(baseline, [a, b, c], ts, id2, id3, at) ==
            match RevisionRun(baseline, a, ts, id2, id3, at)
            case None => None
            case Some(t2) =>
              match RevisionRun(baseline, b, t2, id2, id3, at)
              case None => None
              case Some(t3) => RevisionRun(baseline, c, t3, id2, id3, at)
  {
    assert [a, b, c][1..] == [b, c] && [b, c][1..] == [c] && [c][1..] == [];
    var t2 := RevisionRun(baseline, a, ts, id2, id3, at);
    if t2.Some? {
      var t3 := RevisionRun(baseline, b, t2.value, id2, id3, at);
      if t3.Some? {
        assert RevisionsRun(baseline, [c], t3.value, id2, id3, at) == RevisionRun(baseline, c, t3.value, id2, id3, at);
      }
    }
  }

  /** Each revision runs after the one before it; at the baseline the last three are pending, and at
      head none is. */
  lemma PendingAfterBaseline()
    ensures forall i :: 0 < i < |CHAIN| ==> CHAIN[i].down == Some(CHAIN[i - 1].id)
    ensures Pending(CHAIN, None) == Some(CHAIN)
    ensures Pending(CHAIN, Some("0001_legacy_baseline")) == Some([CHAIN[1], CHAIN[2], CHAIN[3]])
    ensures Pending(CHAIN, Some("0004_stage4_priority_score")) == Some([])
  {
    assert CHAIN[1..] == [CHAIN[1], CHAIN[2], CHAIN[3]];
    assert CHAIN[1..][1..] == [CHAIN[2], CHAIN[3]] && [CHAIN[2], CHAIN[3]][1..] == [CHAIN[3]];
  }

  /** From the baseline, upgrading to head is 0002, 0003 and 0004. */
  lemma UpgradedFromBaseline(baseline: Tables -> Option<Tables>, ts: Tables, id2: NewId, id3: NewId, at: nat)
    ensures UpgradedFrom(baseline, ts, Some("0001_legacy_baseline"), id2, id3, at) == UpgradedToHead(ts, id2, id3, at)
  {
    PendingAfterBaseline();
    ThreeRevisions(baseline, CHAIN[1], CHAIN[2], CHAIN[3], ts, id2, id3, at);
  }

  // --- The migrations ---------------------------------------------------

  /** A connection with DDL operations; each upgrade is one transaction. */
  class Database {
    var tables: Tables

    constructor (ts: Tables)
      ensures tables == ts
    {
      tables := ts;
    }

    method CreateTable(name: TableName, t: LiveTable) returns (ok: bool)
      modifies this
      ensures ok <==> CreatedTable(old(tables), name, t).Some?
      ensures tables == if ok then CreatedTable(old(tables), name, t).value else old(tables)
    {
      ok := name !in tables && forall fk :: fk in t.foreignKeys ==> Referable(tables, t, fk);
      if ok {
        tables := tables[name := t];
      }
    }

    method AddColumn(name: TableName, column: ColumnName, c: LiveColumn) returns (ok: bool)
      modifies this
      ensures ok <==> AddedColumn(old(tables), name, column, c).Some?
      ensures tables == if ok then AddedColumn(old(tables), name, column, c).value else old(tables)
    {
      ok := name in tables && column !in tables[name].columns;
      if ok {
        var t := tables[name];
        tables := tables[name := t.(columns := t.columns[column := c])];
      }
    }

    method CreateForeignKey(name: TableName, fk: LiveForeignKey, at: nat) returns (ok: bool)
      modifies this
      ensures ok <==> AddedForeignKey(old(tables), name, fk, at).Some?
      ensures tables == if ok then AddedForeignKey(old(tables), name, fk, at).value else old(tables)
    {
      ok := name in tables && Referable(tables, tables[name], fk) && at <= |tables[name].foreignKeys|;
      if ok {
        var t := tables[name];
        tables := tables[name := t.(foreignKeys := t.foreignKeys[..at] + [fk] + t.foreignKeys[at..])];
      }
    }

    method Upgrade0002(id: NewId) returns (ok: bool)
      modifies this
      ensures ok <==> Upgraded0002(old(tables), id).Some?
      ensures tables == if ok then Upgraded0002(old(tables), id).value else old(tables)
    {
      ok := CreateTable(BehaviorCapabilities, CapabilityTable(id));
    }

    method Upgrade0003(id: NewId, at: nat) returns (ok: bool)
      modifies this
      ensures ok <==> Upgraded0003(old(tables), id, at).Some?
      ensures tables == if ok then Upgraded0003(old(tables), id, at).value else old(tables)
    {
      var before := tables;
      ok := AddColumn(Applications, ServiceId, SERVICE_COLUMN);
      if ok {
        ok := CreateForeignKey(Applications, SERVICE_KEY, at);
      }
      if ok {
        ok := CreateTable(IdempotencyKeys, KeyTable(id));
      }
      if !ok {
        tables := before;
      }
    }

    method Upgrade0004() returns (ok: bool)
      modifies this
      ensures ok <==> Upgraded0004(old(tables)).Some?
      ensures tables == if ok then Upgraded0004(old(tables)).value else old(tables)
    {
      ok := AddColumn(Applications, PriorityScore, SCORE_COLUMN);
    }

    /** Stops at the first revision that fails; the ones before it stay. */
    method UpgradeToHead(id2: NewId, id3: NewId, at: nat) returns (ok: bool)
      modifies this
      ensures ok <==> UpgradedToHead(old(tables), id2, id3, at).Some?
      ensures ok ==> tables == UpgradedToHead(old(tables), id2, id3, at).value
    {
      ok := Upgrade0002(id2);
      if ok {
        ok := Upgrade0003(id3, at);
      }
      if ok {
        ok := Upgrade0004();
      }
    }
  }

  // --- From the legacy shape to the current one -------------------------

  /** PostgreSQL's own consistency: a foreign key constrains columns its table has. */
  predicate WellFormed(t: LiveTable) {
    forall i :: 0 <= i < |t.foreignKeys| ==> HasColumns(t, t.foreignKeys[i].columns)
  }

  function Unserial(s: ColumnSpec): ColumnSpec {
    s.(serialPk := false)
  }

  /** A check without the sequence test asks for less. */
  lemma UnserialMatches(t: LiveTable, regclass: map<string, nat>, later: map<string, nat>, legacy: TableSpec,
          current: TableSpec)
    requires Matches(t, regclass, legacy)
    requires |legacy.columns| > 0 && current.columns == [Unserial(legacy.columns[0])] + legacy.columns[1..]
    requires forall i :: 1 <= i < |legacy.columns| ==> !legacy.columns[i].serialPk
    requires current.primaryKey == legacy.primaryKey && current.uniques == legacy.uniques
            && current.foreignKeys == legacy.foreignKeys
    ensures Matches(t, later, current)
  {
    forall s | s in current.columns ensures s.name in Names(legacy.columns) && ColumnMatches(t, s) && !s.serialPk {
      var i :| 0 <= i < |current.columns| && current.columns[i] == s;
      assert legacy.columns[i] in legacy.columns;
      assert ColumnMatches(t, legacy.columns[i]);
    }
    forall s | s in legacy.columns ensures s.name in Names(current.columns) {
      var i :| 0 <= i < |legacy.columns| && legacy.columns[i] == s;
      assert current.columns[i] in current.columns;
    }
    assert Names(current.columns) == Names(legacy.columns);
  }

  const SERVICE_SPEC := Integer(ServiceId, None, true)
  const SCORE_SPEC := Integer(PriorityScore, Some(true))

  /** `current` is `legacy` without the sequence test, with the two new columns. */
  predicate Extends(legacy: seq<ColumnSpec>, current: seq<ColumnSpec>) {
    && |legacy| > 0
    && (forall i :: 1 <= i < |legacy| ==> !legacy[i].serialPk)
    && (forall s :: s in current ==>
            s == SERVICE_SPEC || s == SCORE_SPEC || s == Unserial(legacy[0]) || s in legacy[1..])
    && SERVICE_SPEC in current && SCORE_SPEC in current && Unserial(legacy[0]) in current
    && (forall s :: s in legacy[1..] ==> s in current)
  }

  /** Where each column of the one literal stands in the other. */
  ghost predicate Aligned(l: seq<ColumnSpec>, c: seq<ColumnSpec>) {
    && |l| == 21 && |c| == 23
    && c[0] == Unserial(l[0]) && c[14] == SERVICE_SPEC && c[22] == SCORE_SPEC
    && (forall i :: 1 <= i < 14 ==> c[i] == l[i])
    && (forall i :: 15 <= i < 22 ==> c[i] == l[i - 1])
    && (forall i :: 1 <= i < 21 ==> !l[i].serialPk)
  }

  lemma LiteralsAligned()
    ensures Aligned(LEGACY_APPLICATIONS.columns, CURRENT_APPLICATIONS.columns)
  {
  }

  lemma AlignedExtends(l: seq<ColumnSpec>, c: seq<ColumnSpec>)
    requires Aligned(l, c)
    ensures Extends(l, c)
  {
    forall s | s in c ensures s == SERVICE_SPEC || s == SCORE_SPEC || s == Unserial(l[0]) || s in l[1..] {
      var i :| 0 <= i < |c| && c[i] == s;
      if 1 <= i < 14 {
        assert l[1..][i - 1] == s;
      } else if 15 <= i < 22 {
        assert l[1..][i - 2] == s;
      }
    }
    forall s | s in l[1..] ensures s in c {
      var i :| 0 <= i < 20 && l[1..][i] == s;
      assert s == if i < 13 then c[i + 1] else c[i + 2];
    }
  }

  lemma {:induction false} FirstOnInserted(fks: seq<LiveForeignKey>, fk: LiveForeignKey, at: nat)
    requires at <= |fks|
    requires forall i :: 0 <= i < |fks| ==> fks[i].columns != fk.columns
    ensures FirstOn(fks[..at] + [fk] + fks[at..], fk.columns) == Some(fk)
  {
    var s := fks[..at] + [fk] + fks[at..];
    if at > 0 {
      FirstOnInserted(fks[1..], fk, at - 1);
      assert s[1..] == fks[1..][..at - 1] + [fk] + fks[1..][at - 1..];
    }
  }

  /** The applications table after 0003 and 0004. */
  function MigratedApplications(t: LiveTable, at: nat): LiveTable
    requires at <= |t.foreignKeys|
  {
    t.(columns := t.columns[ServiceId := SERVICE_COLUMN][PriorityScore := SCORE_COLUMN],
       foreignKeys := t.foreignKeys[..at] + [SERVICE_KEY] + t.foreignKeys[at..])
  }

  lemma ColumnsMigrated(t: LiveTable, at: nat, legacy: seq<ColumnSpec>, current: seq<ColumnSpec>)
    requires Extends(legacy, current) && at <= |t.foreignKeys|
    requires t.columns.Keys == Names(legacy) && forall s :: s in legacy ==> ColumnMatches(t, s)
    requires ServiceId !in t.columns && PriorityScore !in t.columns
    ensures MigratedApplications(t, at).columns.Keys == Names(current)
    ensures forall s :: s in current ==> ColumnMatches(MigratedApplications(t, at), s) && !s.serialPk
  {
    var m := MigratedApplications(t, at);
    assert legacy == [legacy[0]] + legacy[1..];
    forall s | s in current ensures ColumnMatches(m, s) && !s.serialPk {
      if s == Unserial(legacy[0]) {
        assert ColumnMatches(t, legacy[0]) && legacy[0].name in t.columns;
      } else if s in legacy[1..] {
        assert ColumnMatches(t, s) && s.name in t.columns;
      }
    }
    forall n | n in m.columns ensures n in Names(current) {
      if n == ServiceId {
        assert n == SERVICE_SPEC.name;
      } else if n == PriorityScore {
        assert n == SCORE_SPEC.name;
      } else {
        var s :| s in legacy && s.name == n;
        assert n == Unserial(s).name;
      }
    }
    forall n | n in Names(current) ensures n in m.columns {
      var s :| s in current && s.name == n;
      assert ColumnMatches(m, s);
    }
  }

  lemma ApplicationsMatch(t: LiveTable, regclass: map<string, nat>, later: map<string, nat>, at: nat)
    requires Matches(t, regclass, LEGACY_APPLICATIONS) && WellFormed(t) && at <= |t.foreignKeys|
    ensures Matches(MigratedApplications(t, at), later, CURRENT_APPLICATIONS)
  {
    LegacyColumnsAreOld(t, regclass);
    LiteralsAligned();
    AlignedExtends(LEGACY_APPLICATIONS.columns, CURRENT_APPLICATIONS.columns);
    ColumnsMigrated(t, at, LEGACY_APPLICATIONS.columns, CURRENT_APPLICATIONS.columns);
    ServiceKeyMatches(t, at);
  }

  lemma ServiceKeyMatches(t: LiveTable, at: nat)
    requires WellFormed(t) && at <= |t.foreignKeys| && ServiceId !in t.columns
    ensures forall f :: f in CURRENT_APPLICATIONS.foreignKeys ==> ForeignKeyMatches(MigratedApplications(t, at), f)
  {
    forall i | 0 <= i < |t.foreignKeys| ensures t.foreignKeys[i].columns != SERVICE_KEY.columns {
      assert HasColumns(t, t.foreignKeys[i].columns);
      assert ServiceId in SERVICE_KEY.columns;
    }
    FirstOnInserted(t.foreignKeys, SERVICE_KEY, at);
  }

  lemma CapabilityTableColumns(id: NewId, later: map<string, nat>)
    ensures CapabilityTable(id).columns.Keys == Names(CURRENT_CAPABILITIES.columns)
    ensures forall s :: s in CURRENT_CAPABILITIES.columns ==>
            ColumnMatches(CapabilityTable(id), s) && SerialMatches(CapabilityTable(id), later, s)
  {
    var t, l := CapabilityTable(id), CURRENT_CAPABILITIES.columns;
    assert t.columns.Keys == {Id, ApplicationId, CapabilityHash, UsedAt, CreatedAt};
    FiveColumns(t, later, l);
  }

  lemma CapabilityTableMatches(id: NewId, later: map<string, nat>)
    ensures Matches(CapabilityTable(id), later, CURRENT_CAPABILITIES)
  {
    CapabilityTableColumns(id, later);
    assert FirstOn([CASCADE_KEY], [ApplicationId]) == Some(CASCADE_KEY);
    assert ToSet([Id]) == {Id};
  }

  lemma KeyTableColumns(id: NewId, later: map<string, nat>)
    ensures KeyTable(id).columns.Keys == Names(CURRENT_KEYS.columns)
    ensures forall s :: s in CURRENT_KEYS.columns ==>
            ColumnMatches(KeyTable(id), s) && SerialMatches(KeyTable(id), later, s)
  {
    var t, l := KeyTable(id), CURRENT_KEYS.columns;
    assert t.columns.Keys == {Id, IdempotencyKeyHash, RequestHash, ApplicationId, CreatedAt};
    FiveColumns(t, later, l);
  }

  lemma KeyTableMatches(id: NewId, later: map<string, nat>)
    ensures Matches(KeyTable(id), later, CURRENT_KEYS)
  {
    KeyTableColumns(id, later);
    assert FirstOn([CASCADE_KEY], [ApplicationId]) == Some(CASCADE_KEY);
    assert ToSet([Id]) == {Id};
  }

  predicate PlainMatches(t: LiveTable, s: ColumnSpec) {
    ColumnMatches(t, s) && !s.serialPk
  }

  lemma FiveColumns(t: LiveTable, later: map<string, nat>, l: seq<ColumnSpec>)
    requires |l| == 5
    requires PlainMatches(t, l[0]) && PlainMatches(t, l[1]) && PlainMatches(t, l[2]) && PlainMatches(t, l[3])
            && PlainMatches(t, l[4])
    requires t.columns.Keys == {l[0].name, l[1].name, l[2].name, l[3].name, l[4].name}
    ensures t.columns.Keys == Names(l)
    ensures forall s :: s in l ==> ColumnMatches(t, s) && SerialMatches(t, later, s)
  {
    assert forall i :: 0 <= i < 5 ==> l[i] in l;
    forall s | s in l ensures PlainMatches(t, s) {
      var i :| 0 <= i < 5 && l[i] == s;
    }
  }

  /** The four legacy tables as expected, and none of the tables 0002 and 0003 create. */
  ghost predicate LegacyTables(ts: Tables, regclass: map<string, nat>) {
    && Admins in ts && Matches(ts[Admins], regclass, LEGACY_ADMINS)
    && AdminSettings in ts && Matches(ts[AdminSettings], regclass, LEGACY_SETTINGS)
    && Applications in ts && Matches(ts[Applications], regclass, LEGACY_APPLICATIONS)
    && BehaviorMetrics in ts && Matches(ts[BehaviorMetrics], regclass, LEGACY_METRICS)
    && BehaviorCapabilities !in ts && IdempotencyKeys !in ts
  }

  /** The shape the legacy check accepts is one to migrate from. */
  lemma ExactShapeIsLegacy(c: Catalog)
    requires ExactShape(c, LEGACY_TABLES)
    ensures LegacyTables(c.tables, c.regclass)
  {
    assert LEGACY_TABLES[0] == LEGACY_ADMINS && LEGACY_TABLES[1] == LEGACY_SETTINGS;
    assert LEGACY_TABLES[2] == LEGACY_APPLICATIONS && LEGACY_TABLES[3] == LEGACY_METRICS;
    ShapeHas(c, LEGACY_TABLES, 0);
    ShapeHas(c, LEGACY_TABLES, 1);
    ShapeHas(c, LEGACY_TABLES, 2);
    ShapeHas(c, LEGACY_TABLES, 3);
    NothingNewYet(c);
  }

  lemma NothingNewYet(c: Catalog)
    requires ExactShape(c, LEGACY_TABLES)
    ensures BehaviorCapabilities !in c.tables && IdempotencyKeys !in c.tables
  {
    ShapeHasOnly(c, LEGACY_TABLES, BehaviorCapabilities);
    ShapeHasOnly(c, LEGACY_TABLES, IdempotencyKeys);
  }

  lemma ShapeHas(c: Catalog, specs: seq<TableSpec>, i: nat)
    requires AllMatch(c, specs) && i < |specs|
    ensures TableMatches(c, specs[i])
  {
  }

  lemma ShapeHasOnly(c: Catalog, specs: seq<TableSpec>, name: TableName)
    requires ExactShape(c, specs) && forall i :: 0 <= i < |specs| ==> specs[i].name != name
    ensures name !in c.tables
  {
  }

  lemma LegacyNames()
    ensures forall i :: 0 <= i < |LEGACY_APPLICATIONS.columns| ==>
            LEGACY_APPLICATIONS.columns[i].name != ServiceId && LEGACY_APPLICATIONS.columns[i].name != PriorityScore
  {
  }

  lemma NotAmong(l: seq<ColumnSpec>, name: ColumnName)
    requires forall i :: 0 <= i < |l| ==> l[i].name != name
    ensures name !in Names(l)
  {
  }

  lemma NamesAreOld()
    ensures ServiceId !in Names(LEGACY_APPLICATIONS.columns) && PriorityScore !in Names(LEGACY_APPLICATIONS.columns)
  {
    LegacyNames();
    NotAmong(LEGACY_APPLICATIONS.columns, ServiceId);
    NotAmong(LEGACY_APPLICATIONS.columns, PriorityScore);
  }

  lemma LegacyColumnsAreOld(t: LiveTable, regclass: map<string, nat>)
    requires Matches(t, regclass, LEGACY_APPLICATIONS)
    ensures ServiceId !in t.columns && PriorityScore !in t.columns && t.primaryKey == {Id}
  {
    NamesAreOld();
    assert ToSet([Id]) == {Id};
  }

  lemma LegacySettingsKey(t: LiveTable, regclass: map<string, nat>)
    requires Matches(t, regclass, LEGACY_SETTINGS)
    ensures t.primaryKey == {Id}
  {
    assert ToSet([Id]) == {Id};
  }

  /** All that the DDL of 0002 to 0004 asks of the tables. */
  predicate Upgradable(ts: Tables) {
    && AdminSettings in ts && ts[AdminSettings].primaryKey == {Id}
    && Applications in ts && ts[Applications].primaryKey == {Id}
    && ServiceId !in ts[Applications].columns && PriorityScore !in ts[Applications].columns
    && BehaviorCapabilities !in ts && IdempotencyKeys !in ts
  }

  /** The schema at head. */
  function Head(ts: Tables, id2: NewId, id3: NewId, at: nat): Tables
    requires Applications in ts && at <= |ts[Applications].foreignKeys|
  {
    ts[BehaviorCapabilities := CapabilityTable(id2)]
      [Applications := MigratedApplications(ts[Applications], at)]
      [IdempotencyKeys := KeyTable(id3)]
  }

  lemma UpgradeSucceeds(ts: Tables, id2: NewId, id3: NewId, at: nat)
    requires Upgradable(ts) && at <= |ts[Applications].foreignKeys|
    ensures UpgradedToHead(ts, id2, id3, at) == Some(Head(ts, id2, id3, at))
  {
    assert ToSet([Id]) == {Id};
    var t2 := ts[BehaviorCapabilities := CapabilityTable(id2)];
    assert Upgraded0002(ts, id2) == Some(t2);
    var t := ts[Applications];
    var ta := t.(columns := t.columns[ServiceId := SERVICE_COLUMN]);
    var a := t2[Applications := ta];
    assert AddedColumn(t2, Applications, ServiceId, SERVICE_COLUMN) == Some(a);
    var tb := ta.(foreignKeys := t.foreignKeys[..at] + [SERVICE_KEY] + t.foreignKeys[at..]);
    var b := a[Applications := tb];
    assert AddedForeignKey(a, Applications, SERVICE_KEY, at) == Some(b);
    var t3 := b[IdempotencyKeys := KeyTable(id3)];
    assert CreatedTable(b, IdempotencyKeys, KeyTable(id3)) == Some(t3);
    assert Upgraded0003(t2, id3, at) == Some(t3);
    assert Upgraded0004(t3).value == Head(ts, id2, id3, at);
  }

  /** The column can be referred to. */
  predicate KeyedById(ts: Tables, name: TableName) {
    name in ts && (ts[name].primaryKey == {Id} || {Id} in ts[name].uniques)
  }

  /** The statements of 0002 to 0004 go through exactly if the new tables and columns are not there yet and
      the two tables they refer to are keyed by id. */
  lemma UpgradeSucceedsExactlyWhen(ts: Tables, id2: NewId, id3: NewId, at: nat)
    ensures UpgradedToHead(ts, id2, id3, at).Some?
       <==> && KeyedById(ts, Applications) && KeyedById(ts, AdminSettings)
            && BehaviorCapabilities !in ts && IdempotencyKeys !in ts
            && ServiceId !in ts[Applications].columns && PriorityScore !in ts[Applications].columns
            && at <= |ts[Applications].foreignKeys|
  {
    assert ToSet([Id]) == {Id};
    CapabilityTableFits(ts, id2);
    var t2 := Upgraded0002(ts, id2);
    if t2.Some? {
      ServiceColumnFits(t2.value, id3, at);
    }
  }

  lemma CascadeFits(ts: Tables, t: LiveTable)
    requires t.foreignKeys == [CASCADE_KEY] && ApplicationId in t.columns
    ensures (forall fk :: fk in t.foreignKeys ==> Referable(ts, t, fk)) <==> KeyedById(ts, Applications)
  {
    assert ToSet([Id]) == {Id};
    assert CASCADE_KEY in t.foreignKeys;
    assert Referable(ts, t, CASCADE_KEY) <==> KeyedById(ts, Applications);
  }

  lemma CapabilityTableFits(ts: Tables, id: NewId)
    ensures Upgraded0002(ts, id).Some? <==> BehaviorCapabilities !in ts && KeyedById(ts, Applications)
  {
    CascadeFits(ts, CapabilityTable(id));
  }

  lemma ServiceKeyFits(ts: Tables, t: LiveTable)
    requires ServiceId in t.columns
    ensures Referable(ts, t, SERVICE_KEY) <==> KeyedById(ts, AdminSettings)
  {
    assert ToSet([Id]) == {Id};
  }

  lemma ServiceColumnFits(ts: Tables, id: NewId, at: nat)
    ensures Upgraded0003(ts, id, at).Some?
       <==> && Applications in ts && ServiceId !in ts[Applications].columns
            && KeyedById(ts, AdminSettings) && at <= |ts[Applications].foreignKeys|
            && IdempotencyKeys !in ts && KeyedById(ts, Applications)
    ensures Upgraded0003(ts, id, at).Some? ==>
              Applications in Upgraded0003(ts, id, at).value
              && Upgraded0003(ts, id, at).value[Applications].columns
                 == ts[Applications].columns[ServiceId := SERVICE_COLUMN]
  {
    var t1 := AddedColumn(ts, Applications, ServiceId, SERVICE_COLUMN);
    if t1.Some? {
      ServiceKeyFits(t1.value, t1.value[Applications]);
      var t2 := AddedForeignKey(t1.value, Applications, SERVICE_KEY, at);
      if t2.Some? {
        CascadeFits(t2.value, KeyTable(id));
      }
    }
  }

  ghost predicate OldTables(ts: Tables, regclass: map<string, nat>) {
    && Admins in ts && Matches(ts[Admins], regclass, CURRENT_ADMINS)
    && AdminSettings in ts && Matches(ts[AdminSettings], regclass, CURRENT_SETTINGS)
    && BehaviorMetrics in ts && Matches(ts[BehaviorMetrics], regclass, CURRENT_METRICS)
  }

  ghost predicate NewTables(ts: Tables, regclass: map<string, nat>) {
    && Applications in ts && Matches(ts[Applications], regclass, CURRENT_APPLICATIONS)
    && BehaviorCapabilities in ts && Matches(ts[BehaviorCapabilities], regclass, CURRENT_CAPABILITIES)
    && IdempotencyKeys in ts && Matches(ts[IdempotencyKeys], regclass, CURRENT_KEYS)
  }

  lemma CurrentTablesAllMatch(ts: Tables, regclass: map<string, nat>)
    requires OldTables(ts, regclass) && NewTables(ts, regclass)
    ensures AllMatch(Catalog(ts, regclass), CURRENT_TABLES)
  {
    var c := Catalog(ts, regclass);
    assert TableMatches(c, CURRENT_ADMINS) && TableMatches(c, CURRENT_SETTINGS)
            && TableMatches(c, CURRENT_APPLICATIONS);
    assert TableMatches(c, CURRENT_METRICS) && TableMatches(c, CURRENT_CAPABILITIES) && TableMatches(c, CURRENT_KEYS);
  }

  lemma OldTablesAtHead(ts: Tables, regclass: map<string, nat>, later: map<string, nat>, id2: NewId, id3: NewId,
          at: nat)
    requires LegacyTables(ts, regclass) && at <= |ts[Applications].foreignKeys|
    ensures OldTables(Head(ts, id2, id3, at), later)
  {
    AdminsStillMatch(ts[Admins], regclass, later);
    SettingsStillMatch(ts[AdminSettings], regclass, later);
    MetricsStillMatch(ts[BehaviorMetrics], regclass, later);
  }

  lemma NewTablesAtHead(ts: Tables, regclass: map<string, nat>, later: map<string, nat>, id2: NewId, id3: NewId,
          at: nat)
    requires Applications in ts && Matches(ts[Applications], regclass, LEGACY_APPLICATIONS)
    requires WellFormed(ts[Applications]) && at <= |ts[Applications].foreignKeys|
    ensures NewTables(Head(ts, id2, id3, at), later)
  {
    ApplicationsMatch(ts[Applications], regclass, later, at);
    CapabilityTableMatches(id2, later);
    KeyTableMatches(id3, later);
  }

  /** A database the legacy check accepts migrates to head, and then nothing is wrong with any table
      the startup guard checks, whatever names resolve to afterwards. */
  lemma AcceptedLegacyBecomesReady(ts: Tables, regclass: map<string, nat>, later: map<string, nat>, id2: NewId,
          id3: NewId, at: nat)
    requires LegacyTables(ts, regclass) && WellFormed(ts[Applications]) && at <= |ts[Applications].foreignKeys|
    ensures UpgradedToHead(ts, id2, id3, at).Some?
    ensures AllMatch(Catalog(UpgradedToHead(ts, id2, id3, at).value, later), CURRENT_TABLES)
  {
    LegacySettingsKey(ts[AdminSettings], regclass);
    LegacyColumnsAreOld(ts[Applications], regclass);
    UpgradeSucceeds(ts, id2, id3, at);
    OldTablesAtHead(ts, regclass, later, id2, id3, at);
    NewTablesAtHead(ts, regclass, later, id2, id3, at);
    CurrentTablesAllMatch(Head(ts, id2, id3, at), later);
  }

  lemma AdminsStillMatch(t: LiveTable, regclass: map<string, nat>, later: map<string, nat>)
    requires Matches(t, regclass, LEGACY_ADMINS)
    ensures Matches(t, later, CURRENT_ADMINS)
  {
    var l := LEGACY_ADMINS.columns;
    assert CURRENT_ADMINS.columns == [Unserial(l[0])] + l[1..];
    UnserialMatches(t, regclass, later, LEGACY_ADMINS, CURRENT_ADMINS);
  }

  lemma SettingsStillMatch(t: LiveTable, regclass: map<string, nat>, later: map<string, nat>)
    requires Matches(t, regclass, LEGACY_SETTINGS)
    ensures Matches(t, later, CURRENT_SETTINGS)
  {
    var l := LEGACY_SETTINGS.columns;
    assert CURRENT_SETTINGS.columns == [Unserial(l[0])] + l[1..];
    UnserialMatches(t, regclass, later, LEGACY_SETTINGS, CURRENT_SETTINGS);
  }

  lemma MetricsStillMatch(t: LiveTable, regclass: map<string, nat>, later: map<string, nat>)
    requires Matches(t, regclass, LEGACY_METRICS)
    ensures Matches(t, later, CURRENT_METRICS)
  {
    var l := LEGACY_METRICS.columns;
    assert CURRENT_METRICS.columns == [Unserial(l[0])] + l[1..];
    UnserialMatches(t, regclass, later, LEGACY_METRICS, CURRENT_METRICS);
  }
}
