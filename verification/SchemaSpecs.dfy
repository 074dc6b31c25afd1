/** The two expected shapes: the legacy database and the one the application starts on. */
module SchemaSpecs {
  import opened Wrappers
  import opened SchemaIntrospect

  function Integer(name: ColumnName, default: Option<bool> := None, nullable: bool := false): ColumnSpec {
    ColumnSpec(name, INTEGER, nullable, serverDefault := default)
  }

  function Varchar(name: ColumnName, length: nat, nullable: bool := false): ColumnSpec {
    ColumnSpec(name, VARCHAR, nullable, length := Some(length))
  }

  function Text(name: ColumnName, nullable: bool := false, default: Option<bool> := None): ColumnSpec {
    ColumnSpec(name, TEXT, nullable, serverDefault := default)
  }

  function Money(name: ColumnName): ColumnSpec {
    ColumnSpec(name, NUMERIC, false, precision := Some(12), scale := Some(2))
  }

  function Timestamp(name: ColumnName, nullable: bool := false, default: bool := true): ColumnSpec {
    ColumnSpec(name, TIMESTAMPTZ, nullable, serverDefault := Some(default))
  }

  const NO_DEFAULT: Option<bool> := Some(false)
  const SERIAL_ID := ColumnSpec(Id, INTEGER, false, serverDefault := Some(true), serialPk := true)
  const GENERATED_ID := ColumnSpec(Id, INTEGER, false, serverDefault := Some(true))
  const ACTIVE_FLAG := ColumnSpec(IsActive, BOOLEAN, false, serverDefault := Some(false))

  const TO_APPLICATION :=
    ForeignKeySpec([ApplicationId], Reference(PUBLIC, Applications, [Id]), Exactly("CASCADE"))

  // --- Legacy -----------------------------------------------------------

  const LEGACY_ADMINS := TableSpec(
    Admins,
    [SERIAL_ID, Varchar(Username, 150), Varchar(PasswordHash, 255), ACTIVE_FLAG, Timestamp(CreatedAt),
            Timestamp(UpdatedAt)],
    [Id], [{Username}], [])

  const LEGACY_SETTINGS := TableSpec(
    AdminSettings,
    [SERIAL_ID, Varchar(ServiceName, 255), Money(BudgetMin), Money(BudgetMax), Text(Description, true, NO_DEFAULT),
     ACTIVE_FLAG, Timestamp(CreatedAt), Timestamp(UpdatedAt)],
    [Id], [], [])

  const LEGACY_APPLICATIONS := TableSpec(
    Applications,
    [SERIAL_ID, Varchar(FirstName, 100), Varchar(LastName, 100), Varchar(MiddleName, 100, true),
     Varchar(ContactData, 255), Varchar(BusinessNiche, 255), Varchar(CompanySize, 50), Text(BusinessInfo),
     Text(TaskScope), Varchar(RequesterRole, 50), Varchar(BusinessSize, 50), Text(NeedScope), Varchar(Deadline, 100),
     Varchar(TaskType, 100), Varchar(InterestedProduct, 255), Money(Budget), Varchar(PreferredContactMethod, 50),
     Varchar(PreferredContactTime, 100), Text(Comment, true), Timestamp(CreatedAt), Timestamp(UpdatedAt)],
    [Id], [], [])

  const LEGACY_METRICS := TableSpec(
    BehaviorMetrics,
    [SERIAL_ID, Integer(ApplicationId), Integer(TimeOnPage, NO_DEFAULT),
     ColumnSpec(ClickedButtons, JSONB, false, serverDefault := NO_DEFAULT),
     ColumnSpec(CursorHoverData, JSONB, false, serverDefault := NO_DEFAULT),
     Integer(ReturnCount, NO_DEFAULT), Timestamp(CreatedAt), Timestamp(UpdatedAt)],
    [Id], [{ApplicationId}], [TO_APPLICATION])

  const LEGACY_TABLES := [LEGACY_ADMINS, LEGACY_SETTINGS, LEGACY_APPLICATIONS, LEGACY_METRICS]

  // --- Current ----------------------------------------------------------

  const CURRENT_ADMINS := TableSpec(
    Admins,
    [GENERATED_ID, Varchar(Username, 150), Varchar(PasswordHash, 255), ACTIVE_FLAG, Timestamp(CreatedAt),
            Timestamp(UpdatedAt)],
    [Id], [{Username}], [])

  const CURRENT_SETTINGS := TableSpec(
    AdminSettings,
    [GENERATED_ID, Varchar(ServiceName, 255), Money(BudgetMin), Money(BudgetMax), Text(Description, true, NO_DEFAULT),
     ACTIVE_FLAG, Timestamp(CreatedAt), Timestamp(UpdatedAt)],
    [Id], [], [])

  const CURRENT_APPLICATIONS := TableSpec(
    Applications,
    [GENERATED_ID, Varchar(FirstName, 100), Varchar(LastName, 100), Varchar(MiddleName, 100, true),
     Varchar(ContactData, 255), Varchar(BusinessNiche, 255), Varchar(CompanySize, 50), Text(BusinessInfo),
     Text(TaskScope), Varchar(RequesterRole, 50), Varchar(BusinessSize, 50), Text(NeedScope), Varchar(Deadline, 100),
     Varchar(TaskType, 100), Integer(ServiceId, None, true), Varchar(InterestedProduct, 255), Money(Budget),
     Varchar(PreferredContactMethod, 50), Varchar(PreferredContactTime, 100), Text(Comment, true),
     Timestamp(CreatedAt), Timestamp(UpdatedAt), Integer(PriorityScore, Some(true))],
    [Id], [],
    [ForeignKeySpec([ServiceId], Reference(PUBLIC, AdminSettings, [Id]), NoAction)])

  const CURRENT_METRICS := TableSpec(
    BehaviorMetrics,
    [GENERATED_ID, Integer(ApplicationId), Integer(TimeOnPage, NO_DEFAULT),
     ColumnSpec(ClickedButtons, JSONB, false, serverDefault := NO_DEFAULT),
     ColumnSpec(CursorHoverData, JSONB, false, serverDefault := NO_DEFAULT),
     Integer(ReturnCount, NO_DEFAULT), Timestamp(CreatedAt), Timestamp(UpdatedAt)],
    [Id], [{ApplicationId}], [TO_APPLICATION])

  const CURRENT_CAPABILITIES := TableSpec(
    BehaviorCapabilities,
    [GENERATED_ID, Integer(ApplicationId), Varchar(CapabilityHash, 64), Timestamp(UsedAt, true, false),
            Timestamp(CreatedAt)],
    [Id], [{ApplicationId}, {CapabilityHash}], [TO_APPLICATION])

  const CURRENT_KEYS := TableSpec(
    IdempotencyKeys,
    [GENERATED_ID, Varchar(IdempotencyKeyHash, 64), Varchar(RequestHash, 64), Integer(ApplicationId, None, true),
     Timestamp(CreatedAt)],
    [Id], [{IdempotencyKeyHash}], [TO_APPLICATION])

  const CURRENT_TABLES :=
    [CURRENT_ADMINS, CURRENT_SETTINGS, CURRENT_APPLICATIONS, CURRENT_METRICS, CURRENT_CAPABILITIES, CURRENT_KEYS]

  function TableNames(specs: seq<TableSpec>): set<TableName> {
    set s | s in specs :: s.name
  }

  // --- The two checks ---------------------------------------------------

  datatype Verdict =
    | Accepted
    | Refused(problems: seq<Finding>)
    | LookupRaised

  datatype Finding =
    | WrongSchema(current: string)
    | MissingTable(table: TableName)
    | UnexpectedTables(tables: set<TableName>)
    | InTable(table: TableName, problem: Problem)

  ghost predicate TableMatches(c: Catalog, s: TableSpec) {
    s.name in c.tables && Matches(c.tables[s.name], c.regclass, s)
  }

  ghost predicate AllMatch(c: Catalog, specs: seq<TableSpec>) {
    forall i :: 0 <= i < |specs| ==> TableMatches(c, specs[i])
  }

  /** Exactly the given tables, every one of them as expected. */
  ghost predicate ExactShape(c: Catalog, specs: seq<TableSpec>) {
    c.tables.Keys == TableNames(specs) && AllMatch(c, specs)
  }

  /** Every expected column of every expected table has its type. */
  ghost predicate AllTyped(c: Catalog, specs: seq<TableSpec>) {
    forall i :: 0 <= i < |specs| ==> specs[i].name in c.tables && ColumnsTyped(c.tables[specs[i].name], specs[i])
  }

  lemma AllMatchIsTyped(c: Catalog, specs: seq<TableSpec>)
    requires AllMatch(c, specs)
    ensures AllTyped(c, specs)
  {
    forall i | 0 <= i < |specs|
      ensures specs[i].name in c.tables && ColumnsTyped(c.tables[specs[i].name], specs[i])
    {
      assert TableMatches(c, specs[i]);
      MatchingIsTyped(c.tables[specs[i].name], c.regclass, specs[i]);
    }
  }

  predicate IsMoney(t: LiveType) {
    t.class_ == NumericType && t.precision == Some(12) && t.scale == Some(2)
  }

  predicate HasMoney(c: Catalog, table: TableName, column: ColumnName) {
    table in c.tables && column in c.tables[table].columns && IsMoney(c.tables[table].columns[column].type_)
  }

  lemma TypedMoney(c: Catalog, spec: TableSpec, j: nat, column: ColumnName)
    requires spec.name in c.tables && ColumnsTyped(c.tables[spec.name], spec)
    requires j < |spec.columns| && spec.columns[j] == Money(column)
    ensures HasMoney(c, spec.name, column)
  {
    assert spec.columns[j] in spec.columns;
  }

  lemma TypedAt(c: Catalog, specs: seq<TableSpec>, i: nat)
    requires AllTyped(c, specs) && i < |specs|
    ensures specs[i].name in c.tables && ColumnsTyped(c.tables[specs[i].name], specs[i])
  {
  }

  /** All three amounts of money are NUMERIC(12, 2). */
  predicate MoneyIsExact(c: Catalog) {
    && HasMoney(c, Applications, Budget)
    && HasMoney(c, AdminSettings, BudgetMin) && HasMoney(c, AdminSettings, BudgetMax)
  }

  lemma BudgetColumns()
    ensures |LEGACY_APPLICATIONS.columns| == 21 && LEGACY_APPLICATIONS.columns[15] == Money(Budget)
    ensures |CURRENT_APPLICATIONS.columns| == 23 && CURRENT_APPLICATIONS.columns[16] == Money(Budget)
    ensures LEGACY_APPLICATIONS.name == Applications && CURRENT_APPLICATIONS.name == Applications
  {
  }

  lemma BoundColumns()
    ensures |LEGACY_SETTINGS.columns| == 8 && |CURRENT_SETTINGS.columns| == 8
    ensures LEGACY_SETTINGS.columns[2] == Money(BudgetMin) && LEGACY_SETTINGS.columns[3] == Money(BudgetMax)
    ensures CURRENT_SETTINGS.columns[2] == Money(BudgetMin) && CURRENT_SETTINGS.columns[3] == Money(BudgetMax)
    ensures LEGACY_SETTINGS.name == AdminSettings && CURRENT_SETTINGS.name == AdminSettings
  {
  }

  lemma MoneyOf(c: Catalog, settings: TableSpec, applications: TableSpec, j: nat)
    requires settings.name == AdminSettings && |settings.columns| == 8
    requires settings.columns[2] == Money(BudgetMin) && settings.columns[3] == Money(BudgetMax)
    requires applications.name == Applications && j < |applications.columns| && applications.columns[j] == Money(Budget)
    requires AdminSettings in c.tables && ColumnsTyped(c.tables[AdminSettings], settings)
    requires Applications in c.tables && ColumnsTyped(c.tables[Applications], applications)
    ensures MoneyIsExact(c)
  {
    TypedMoney(c, applications, j, Budget);
    TypedMoney(c, settings, 2, BudgetMin);
    TypedMoney(c, settings, 3, BudgetMax);
  }

  lemma LegacyMoney(c: Catalog)
    requires AllTyped(c, LEGACY_TABLES)
    ensures MoneyIsExact(c)
  {
    BudgetColumns();
    BoundColumns();
    TypedAt(c, LEGACY_TABLES, 1);
    TypedAt(c, LEGACY_TABLES, 2);
    MoneyOf(c, LEGACY_SETTINGS, LEGACY_APPLICATIONS, 15);
  }

  lemma CurrentMoney(c: Catalog)
    requires AllTyped(c, CURRENT_TABLES)
    ensures MoneyIsExact(c)
  {
    BudgetColumns();
    BoundColumns();
    TypedAt(c, CURRENT_TABLES, 1);
    TypedAt(c, CURRENT_TABLES, 2);
    MoneyOf(c, CURRENT_SETTINGS, CURRENT_APPLICATIONS, 16);
  }

  /** Every expected table is there and looks as expected. */
  ghost predicate AllLook(c: Catalog, specs: seq<TableSpec>) {
    forall i :: 0 <= i < |specs| ==>
      specs[i].name in c.tables && TableLooks(c.tables[specs[i].name], c.regclass, specs[i])
  }

  lemma AllMatchIsAllLook(c: Catalog, specs: seq<TableSpec>)
    ensures AllMatch(c, specs) <==> AllLook(c, specs)
  {
    forall i | 0 <= i < |specs|
      ensures TableMatches(c, specs[i])
         <==> specs[i].name in c.tables && TableLooks(c.tables[specs[i].name], c.regclass, specs[i])
    {
      if specs[i].name in c.tables {
        MatchesExactlyWhenItLooks(c.tables[specs[i].name], c.regclass, specs[i]);
      }
    }
  }

  /** In a database that the legacy check accepts, every column of the four tables has exactly the type
      expected of it, and every amount of money is NUMERIC(12, 2). */
  lemma AcceptedLegacyIsTyped(c: Catalog)
    requires ExactShape(c, LEGACY_TABLES)
    ensures AllTyped(c, LEGACY_TABLES) && MoneyIsExact(c)
    ensures AllLook(c, LEGACY_TABLES)
  {
    AllMatchIsAllLook(c, LEGACY_TABLES);
    AllMatchIsTyped(c, LEGACY_TABLES);
    LegacyMoney(c);
  }

  /** The same of a database that the application starts on. */
  lemma ReadyIsTyped(c: Catalog)
    requires AllMatch(c, CURRENT_TABLES)
    ensures AllTyped(c, CURRENT_TABLES) && MoneyIsExact(c)
    ensures AllLook(c, CURRENT_TABLES)
  {
    AllMatchIsAllLook(c, CURRENT_TABLES);
    AllMatchIsTyped(c, CURRENT_TABLES);
    CurrentMoney(c);
  }

  /** Wraps a table's problems. */
  function Located(table: TableName, problems: seq<Problem>): seq<Finding> {
    seq(|problems|, i requires 0 <= i < |problems| => InTable(table, problems[i]))
  }

  /** The tables that are there are compared one after another. */
  method DescribeTables(c: Catalog, specs: seq<TableSpec>) returns (findings: Option<seq<Finding>>)
    ensures findings == Some([])
            <==> forall i :: 0 <= i < |specs| && specs[i].name in c.tables ==> TableMatches(c, specs[i])
  {
    var all := [];
    var n := 0;
    while n < |specs|
      invariant 0 <= n <= |specs|
      invariant all == [] <==> forall i :: 0 <= i < n && specs[i].name in c.tables ==> TableMatches(c, specs[i])
    {
      if specs[n].name in c.tables {
        var problems := DescribeTableProblems(c.tables[specs[n].name], c.regclass, specs[n]);
        if problems.None? {
          return None;
        }
        all := all + Located(specs[n].name, problems.value);
      }
      n := n + 1;
    }
    return Some(all);
  }

  /** Accepts exactly the legacy shape: the four tables, no other, each as expected. */
  method VerifyLegacyFingerprint(c: Catalog) returns (verdict: Verdict)
    ensures verdict.Accepted? <==> ExactShape(c, LEGACY_TABLES)
  {
    var specs := LEGACY_TABLES;
    var problems: seq<Finding> := [];
    var n := 0;
    while n < |specs|
      invariant 0 <= n <= |specs|
      invariant problems == [] <==> forall i :: 0 <= i < n ==> specs[i].name in c.tables
    {
      if specs[n].name !in c.tables {
        problems := problems + [MissingTable(specs[n].name)];
      }
      n := n + 1;
    }
    var unexpected := c.tables.Keys - TableNames(specs);
    if unexpected != {} {
      problems := problems + [UnexpectedTables(unexpected)];
    }
    KeysAgree(c, specs);
    var compared := DescribeTables(c, specs);
    if compared.None? {
      return LookupRaised;
    }
    problems := problems + compared.value;
    return if problems != [] then Refused(problems) else Accepted;
  }

  lemma KeysAgree(c: Catalog, specs: seq<TableSpec>)
    ensures c.tables.Keys == TableNames(specs)
            <==> c.tables.Keys - TableNames(specs) == {} && forall i :: 0 <= i < |specs| ==> specs[i].name in c.tables
  {
    if c.tables.Keys - TableNames(specs) == {} && forall i :: 0 <= i < |specs| ==> specs[i].name in c.tables {
      forall n | n in c.tables.Keys ensures n in TableNames(specs) {
        assert n in TableNames(specs) || n in c.tables.Keys - TableNames(specs);
      }
      forall n | n in TableNames(specs) ensures n in c.tables.Keys {
        var s :| s in specs && s.name == n;
        var i :| 0 <= i < |specs| && specs[i] == s;
      }
    }
    if c.tables.Keys == TableNames(specs) {
      forall i | 0 <= i < |specs| ensures specs[i].name in c.tables {
        assert specs[i] in specs;
      }
    }
  }

  /** Starts exactly on the current shape, resolved in the application schema; other tables are ignored. */
  method EnsureDatabaseReady(currentSchema: string, c: Catalog) returns (verdict: Verdict)
    ensures verdict.Accepted? <==> currentSchema == PUBLIC && AllMatch(c, CURRENT_TABLES)
  {
    if currentSchema != PUBLIC {
      return Refused([WrongSchema(currentSchema)]);
    }
    var specs := CURRENT_TABLES;
    var problems: seq<Finding> := [];
    var n := 0;
    while n < |specs|
      invariant 0 <= n <= |specs|
      invariant problems == [] <==> forall i :: 0 <= i < n ==> specs[i].name in c.tables
    {
      if specs[n].name !in c.tables {
        problems := problems + [MissingTable(specs[n].name)];
      }
      n := n + 1;
    }
    if problems != [] {
      return Refused(problems);
    }
    var compared := DescribeTables(c, specs);
    if compared.None? {
      return LookupRaised;
    }
    return if compared.value != [] then Refused(compared.value) else Accepted;
  }
}
