/**
 Adopting a legacy database: verify, hand the tables to the migration role one autocommitted
 statement at a time, stamp the baseline. Any of these steps may be the last one of a run.
 */
module Adoption {
  import opened Wrappers
  import opened SchemaIntrospect
  import opened SchemaSpecs
  import opened Migrations

  /** `owners` holds each table's owner; the table's own sequence follows it. */
  datatype Site = Site(catalog: Catalog, owners: map<TableName, string>, version: Option<string>)

  datatype Outcome =
    | AlreadyAdopted
    | NotLegacy         // LegacySchemaVerificationError, or the verification itself raised
    | Interrupted
    | Adopted

  const BASELINE := "0001_legacy_baseline"

  const VERSION_TABLE := LiveTable(
    map[OtherColumn("version_num") := LiveColumn(LiveType(VarcharType, length := Some(32)), false, None)],
    {OtherColumn("version_num")}, {}, [], map[], map[])

  // --- One run ----------------------------------------------------------

  function Reassigned(owners: map<TableName, string>, order: seq<TableName>, role: string): map<TableName, string> {
    if order == [] then owners
    else Reassigned(owners, order[..|order| - 1], role)[order[|order| - 1] := role]
  }

  function Stamped(s: Site): Site {
    s.(catalog := s.catalog.(tables := s.catalog.tables[AlembicVersion := VERSION_TABLE]), version := Some(BASELINE))
  }

  /** The run's order of the four tables, and how many of its statements take effect. */
  datatype Attempt = Attempt(order: seq<TableName>, budget: nat)

  /** `legacy` is what the verification demands. */
  ghost function Run(s: Site, role: string, legacy: seq<TableSpec>, a: Attempt): (Site, Outcome) {
    if AlembicVersion in s.catalog.tables then (s, AlreadyAdopted)
    else if !ExactShape(s.catalog, legacy) then (s, NotLegacy)
    else if a.budget <= |a.order| then (s.(owners := Reassigned(s.owners, a.order[..a.budget], role)), Interrupted)
    else (Stamped(s.(owners := Reassigned(s.owners, a.order, role))), Adopted)
  }

  /** A database with a version table is already adopted; one without it is refused unless it is the
      legacy one; and only a run that is not cut off says that it adopted it. */
  lemma AnswersAre(s: Site, role: string, legacy: seq<TableSpec>, a: Attempt)
    ensures var (after, outcome) := Run(s, role, legacy, a);
            && (outcome == AlreadyAdopted <==> AlembicVersion in s.catalog.tables)
            && (outcome == NotLegacy <==> AlembicVersion !in s.catalog.tables && !ExactShape(s.catalog, legacy))
            && (outcome == AlreadyAdopted || outcome == NotLegacy ==> after == s)
            && (outcome == Interrupted ==> after.catalog == s.catalog && after.version == s.version)
            && (outcome == Adopted ==> a.budget > |a.order| && after.version == Some("0001_legacy_baseline")
                                       && AlembicVersion in after.catalog.tables)
  {
  }

  class Adopter {
    var catalog: Catalog
    var owners: map<TableName, string>
    var version: Option<string>
    const role: string

    constructor (s: Site, role: string)
      ensures Current() == s && this.role == role
    {
      catalog, owners, version := s.catalog, s.owners, s.version;
      this.role := role;
    }

    function Current(): Site
      reads this
    {
      Site(catalog, owners, version)
    }

    /** One call, cut off after `a.budget` of its statements. */
    method Adopt(a: Attempt) returns (outcome: Outcome)
      modifies this
      ensures (Current(), outcome) == Run(old(Current()), role, LEGACY_TABLES, a)
    {
      if AlembicVersion in catalog.tables {
        return AlreadyAdopted;
      }
      var verdict := VerifyLegacyFingerprint(catalog);
      if !verdict.Accepted? {
        return NotLegacy;
      }
      var n := 0;
      while n < |a.order|
        invariant 0 <= n <= |a.order| && n <= a.budget
        invariant catalog == old(catalog) && version == old(version)
        invariant owners == Reassigned(old(owners), a.order[..n], role)
      {
        if n == a.budget {
          return Interrupted;
        }
        assert a.order[..n + 1][..n] == a.order[..n];
        owners := owners[a.order[n] := role];
        n := n + 1;
      }
      assert a.order[..|a.order|] == a.order;
      if n == a.budget {
        return Interrupted;
      }
      catalog := catalog.(tables := catalog.tables[AlembicVersion := VERSION_TABLE]);
      version := Some(BASELINE);
      return Adopted;
    }
  }

  // --- Any number of runs -----------------------------------------------

  ghost function Runs(s: Site, role: string, legacy: seq<TableSpec>, attempts: seq<Attempt>): Site
    decreases |attempts|
  {
    if attempts == [] then s
    else Run(Runs(s, role, legacy, attempts[..|attempts| - 1]), role, legacy, attempts[|attempts| - 1]).0
  }

  /** The order is one of exactly the given tables. */
  predicate Covers(legacy: seq<TableSpec>, order: seq<TableName>) {
    ToSet(order) == TableNames(legacy)
  }

  ghost predicate AllCover(legacy: seq<TableSpec>, attempts: seq<Attempt>) {
    forall i :: 0 <= i < |attempts| ==> Covers(legacy, attempts[i].order)
  }

  predicate Complete(a: Attempt) {
    a.budget > |a.order|
  }

  /** What one uninterrupted run on an accepted database leaves. */
  function Finished(s: Site, role: string, tables: set<TableName>): Site {
    Stamped(s.(owners := map t | t in s.owners.Keys + tables :: if t in tables then role else s.owners[t]))
  }

  lemma {:induction false} ReassignedIs(owners: map<TableName, string>, order: seq<TableName>, role: string)
    ensures Reassigned(owners, order, role) == map t | t in owners.Keys + ToSet(order) ::
            if t in order then role else owners[t]
  {
    if order != [] {
      var init, last := order[..|order| - 1], order[|order| - 1];
      ReassignedIs(owners, init, role);
      assert order == init + [last];
      assert ToSet(order) == ToSet(init) + {last};
    }
  }

  /** How far earlier runs may have got: some of the tables handed over, nothing else. */
  ghost predicate PartWay(s: Site, now: Site, role: string, tables: set<TableName>) {
    && now.catalog == s.catalog && now.version == s.version
    && s.owners.Keys <= now.owners.Keys <= s.owners.Keys + tables
    && forall t :: t in now.owners ==>
            (t in tables && now.owners[t] == role) || (t in s.owners && now.owners[t] == s.owners[t])
  }

  lemma InterruptedStaysPartWay(s: Site, now: Site, role: string, legacy: seq<TableSpec>, a: Attempt)
    requires ExactShape(s.catalog, legacy) && AlembicVersion !in s.catalog.tables
    requires PartWay(s, now, role, TableNames(legacy)) && Covers(legacy, a.order) && !Complete(a)
    ensures var (after, outcome) := Run(now, role, legacy, a);
            PartWay(s, after, role, TableNames(legacy)) && outcome == Interrupted
  {
    var prefix := a.order[..a.budget];
    ReassignedIs(now.owners, prefix, role);
    forall t | t in prefix ensures t in TableNames(legacy) {
      assert t in ToSet(a.order);
    }
  }

  lemma AllHandedOver(was: map<TableName, string>, now: map<TableName, string>, order: seq<TableName>, role: string)
    requires was.Keys <= now.Keys <= was.Keys + ToSet(order)
    requires forall t :: t in now && t !in order ==> now[t] == was[t]
    ensures Reassigned(now, order, role) == map t | t in was.Keys + ToSet(order) ::
            if t in ToSet(order) then role else was[t]
  {
    ReassignedIs(now, order, role);
    assert now.Keys + ToSet(order) == was.Keys + ToSet(order);
  }

  lemma CompleteFinishes(s: Site, now: Site, role: string, legacy: seq<TableSpec>, a: Attempt)
    requires ExactShape(s.catalog, legacy) && AlembicVersion !in s.catalog.tables
    requires PartWay(s, now, role, TableNames(legacy)) && Covers(legacy, a.order) && Complete(a)
    ensures Run(now, role, legacy, a) == (Finished(s, role, TableNames(legacy)), Adopted)
  {
    forall t | t in now.owners && t !in a.order ensures now.owners[t] == s.owners[t] {
      assert t !in ToSet(a.order);
    }
    AllHandedOver(s.owners, now.owners, a.order, role);
  }

  lemma {:induction false} RunsPartWayOrDone(s: Site, role: string, legacy: seq<TableSpec>, attempts: seq<Attempt>)
    requires ExactShape(s.catalog, legacy) && AlembicVersion !in s.catalog.tables && AllCover(legacy, attempts)
    ensures var now := Runs(s, role, legacy, attempts);
            if exists i :: 0 <= i < |attempts| && Complete(attempts[i])
            then now == Finished(s, role, TableNames(legacy))
            else PartWay(s, now, role, TableNames(legacy))
    decreases |attempts|
  {
    if attempts != [] {
      var init, last := attempts[..|attempts| - 1], attempts[|attempts| - 1];
      RunsPartWayOrDone(s, role, legacy, init);
      if i :| 0 <= i < |init| && Complete(init[i]) {
        assert init[i] == attempts[i];
      } else if Complete(last) {
        CompleteFinishes(s, Runs(s, role, legacy, init), role, legacy, last);
      } else {
        InterruptedStaysPartWay(s, Runs(s, role, legacy, init), role, legacy, last);
        assert forall i :: 0 <= i < |attempts| ==> attempts[i] == if i < |init| then init[i] else last;
      }
    }
  }

  lemma VersionTableIsNew(c: Catalog)
    requires ExactShape(c, LEGACY_TABLES)
    ensures AlembicVersion !in c.tables
  {
    ShapeHasOnly(c, LEGACY_TABLES, AlembicVersion);
  }

  /** Interrupted after any step, as often as it takes, and then run to the end: the state is that of
      one uninterrupted run, and no later run changes it. */
  lemma InterruptedRunsConverge(s: Site, role: string, before: seq<Attempt>, full: Attempt, after: seq<Attempt>)
    requires ExactShape(s.catalog, LEGACY_TABLES)
    requires AllCover(LEGACY_TABLES, before) && AllCover(LEGACY_TABLES, after)
    requires Covers(LEGACY_TABLES, full.order) && Complete(full)
    ensures Run(s, role, LEGACY_TABLES, full) == (Finished(s, role, TableNames(LEGACY_TABLES)), Adopted)
    ensures Runs(s, role, LEGACY_TABLES, before + [full] + after) == Finished(s, role, TableNames(LEGACY_TABLES))
  {
    VersionTableIsNew(s.catalog);
    Converge(s, role, LEGACY_TABLES, before, full, after);
  }

  lemma Converge(s: Site, role: string, legacy: seq<TableSpec>, before: seq<Attempt>, full: Attempt,
          after: seq<Attempt>)
    requires ExactShape(s.catalog, legacy) && AlembicVersion !in s.catalog.tables
    requires AllCover(legacy, before) && AllCover(legacy, after) && Covers(legacy, full.order) && Complete(full)
    ensures Run(s, role, legacy, full) == (Finished(s, role, TableNames(legacy)), Adopted)
    ensures Runs(s, role, legacy, before + [full] + after) == Finished(s, role, TableNames(legacy))
  {
    CompleteFinishes(s, s, role, legacy, full);
    var all := before + [full] + after;
    forall i | 0 <= i < |all| ensures Covers(legacy, all[i].order) {
      assert all[i] == if i < |before| then before[i] else if i == |before| then full else after[i - |before| - 1];
    }
    assert all[|before|] == full;
    RunsPartWayOrDone(s, role, legacy, all);
  }

  /** A refused verification leaves everything as it was: a database that is not the legacy one is
      left alone by any number of runs. */
  lemma {:induction false} OthersUntouched(s: Site, role: string, attempts: seq<Attempt>)
    requires !ExactShape(s.catalog, LEGACY_TABLES)
    ensures Runs(s, role, LEGACY_TABLES, attempts) == s
    decreases |attempts|
  {
    if attempts != [] {
      OthersUntouched(s, role, attempts[..|attempts| - 1]);
    }
  }

  /** From the legacy database to a startable one: verified, adopted however many runs that took,
      migrated to head from the version that adoption recorded, and accepted by the startup guard's table
      checks. */
  lemma AdoptedThenMigratedIsReady(s: Site, role: string, attempts: seq<Attempt>, later: map<string, nat>, id2: NewId,
          id3: NewId, at: nat, baseline: Tables -> Option<Tables>)
    requires ExactShape(s.catalog, LEGACY_TABLES) && AllCover(LEGACY_TABLES, attempts)
    requires exists i :: 0 <= i < |attempts| && Complete(attempts[i])
    requires Applications in s.catalog.tables && WellFormed(s.catalog.tables[Applications])
            && at <= |s.catalog.tables[Applications].foreignKeys|
    ensures var adopted := Runs(s, role, LEGACY_TABLES, attempts);
            var upgraded := UpgradedFrom(baseline, adopted.catalog.tables, adopted.version, id2, id3, at);
            upgraded.Some? && AllMatch(Catalog(upgraded.value, later), CURRENT_TABLES)
  {
    VersionTableIsNew(s.catalog);
    RunsPartWayOrDone(s, role, LEGACY_TABLES, attempts);
    ExactShapeIsLegacy(s.catalog);
    StampKeepsLegacy(s.catalog.tables, s.catalog.regclass);
    AcceptedLegacyBecomesReady(s.catalog.tables[AlembicVersion := VERSION_TABLE], s.catalog.regclass, later, id2, id3,
            at);
    UpgradedFromBaseline(baseline, s.catalog.tables[AlembicVersion := VERSION_TABLE], id2, id3, at);
  }

  lemma StampKeepsLegacy(ts: Tables, regclass: map<string, nat>)
    requires LegacyTables(ts, regclass)
    ensures LegacyTables(ts[AlembicVersion := VERSION_TABLE], regclass)
    ensures ts[AlembicVersion := VERSION_TABLE][Applications] == ts[Applications]
  {
  }
}
