/**
 The read-only comparison of one live PostgreSQL table with an expected shape, shared by the
 legacy fingerprint check and the startup guard.
 */
module SchemaIntrospect {
  import opened Wrappers

  /** The names the expected shapes mention, and any other. */
  datatype TableName =
    | Admins | AdminSettings | Applications | BehaviorMetrics
    | BehaviorCapabilities | IdempotencyKeys
    | AlembicVersion
    | OtherTable(name: string)

  datatype ColumnName =
    | Id | CreatedAt | UpdatedAt | IsActive
    | Username | PasswordHash
    | ServiceName | BudgetMin | BudgetMax | Description
    | FirstName | LastName | MiddleName | ContactData | BusinessNiche | CompanySize | BusinessInfo | TaskScope
    | RequesterRole | BusinessSize | NeedScope | Deadline | TaskType | InterestedProduct | Budget
    | PreferredContactMethod | PreferredContactTime | Comment
    | ServiceId | PriorityScore
    | ApplicationId | TimeOnPage | ClickedButtons | CursorHoverData | ReturnCount
    | CapabilityHash | UsedAt
    | IdempotencyKeyHash | RequestHash
    | OtherColumn(name: string)

  // --- Expected shapes --------------------------------------------------

  datatype Kind = INTEGER | VARCHAR | TEXT | BOOLEAN | NUMERIC | TIMESTAMPTZ | JSONB

  datatype ColumnSpec = ColumnSpec(
    name: ColumnName, kind: Kind, nullable: bool,
    length: Option<nat> := None, precision: Option<nat> := None, scale: Option<nat> := None,
    serverDefault: Option<bool> := None,   // None: not checked
    serialPk: bool := false)

  datatype OnDelete = Unchecked | NoAction | Exactly(action: string)

  datatype Reference = Reference(schema: string, table: TableName, columns: seq<ColumnName>)

  datatype ForeignKeySpec = ForeignKeySpec(columns: seq<ColumnName>, reference: Reference, onDelete: OnDelete)

  datatype TableSpec = TableSpec(
    name: TableName, columns: seq<ColumnSpec>, primaryKey: seq<ColumnName>,
    uniques: seq<set<ColumnName>>, foreignKeys: seq<ForeignKeySpec>)

  const PUBLIC := "public"

  // --- Live tables, as reflected ----------------------------------------

  datatype TypeClass =
    | IntegerType | VarcharType | TextType | BooleanType | NumericType | TimestampType | DateTimeType | JsonbType
    | OtherType(name: string)

  datatype LiveType = LiveType(
    class_: TypeClass, length: Option<nat> := None, precision: Option<nat> := None, scale: Option<nat> := None,
    timezone: bool := false)

  datatype LiveColumn = LiveColumn(type_: LiveType, nullable: bool, default: Option<string>)

  datatype LiveForeignKey = LiveForeignKey(
    columns: seq<ColumnName>, schema: Option<string>, table: TableName, refColumns: seq<ColumnName>,
    onDelete: Option<string>)

  /** A sequence; `plain` when its name needs no quoting, so that the catalog lookup by name finds it. */
  datatype Sequence = Sequence(
    oid: nat, dataType: string, increment: int, cycle: bool, lastValue: int, isCalled: bool, plain: bool)

  /** `owned` is the sequence OWNED BY each column; `values` are the integers stored in it. */
  datatype LiveTable = LiveTable(
    columns: map<ColumnName, LiveColumn>, primaryKey: set<ColumnName>, uniques: set<set<ColumnName>>,
    foreignKeys: seq<LiveForeignKey>, owned: map<ColumnName, Sequence>, values: map<ColumnName, seq<int>>)

  /** `regclass` resolves the text of an object name, as to_regclass does. */
  datatype Catalog = Catalog(tables: map<TableName, LiveTable>, regclass: map<string, nat>)

  // --- Types ------------------------------------------------------------

  predicate TypeMatches(actual: LiveType, spec: ColumnSpec) {
    match spec.kind
    case INTEGER => actual.class_ == IntegerType
    case VARCHAR => actual.class_ == VarcharType && actual.length == spec.length
    case TEXT => actual.class_ == TextType
    case BOOLEAN => actual.class_ == BooleanType
    case NUMERIC => actual.class_ == NumericType && actual.precision == spec.precision && actual.scale == spec.scale
    case TIMESTAMPTZ => (actual.class_ == TimestampType || actual.class_ == DateTimeType) && actual.timezone
    case JSONB => actual.class_ == JsonbType
  }

  /** What a live type is, told from the type alone; a timestamp without a time zone is none of these. */
  function KindOf(t: LiveType): Option<Kind> {
    match t.class_
    case IntegerType => Some(INTEGER)
    case VarcharType => Some(VARCHAR)
    case TextType => Some(TEXT)
    case BooleanType => Some(BOOLEAN)
    case NumericType => Some(NUMERIC)
    case TimestampType => if t.timezone then Some(TIMESTAMPTZ) else None
    case DateTimeType => if t.timezone then Some(TIMESTAMPTZ) else None
    case JsonbType => Some(JSONB)
    case OtherType(_) => None
  }

  /** Of the expected kind, with the expected length, or the expected precision and scale. */
  predicate OfType(t: LiveType, s: ColumnSpec) {
    && KindOf(t) == Some(s.kind)
    && (s.kind == VARCHAR ==> t.length == s.length)
    && (s.kind == NUMERIC ==> t.precision == s.precision && t.scale == s.scale)
  }

  lemma TypeMatchesExactly(t: LiveType, s: ColumnSpec)
    ensures TypeMatches(t, s) <==> OfType(t, s)
  {
  }

  /** No live type passes for two expected types. */
  lemma OneExpectedType(t: LiveType, a: ColumnSpec, b: ColumnSpec)
    requires TypeMatches(t, a) && TypeMatches(t, b)
    ensures a.kind == b.kind
    ensures a.kind == VARCHAR ==> a.length == b.length
    ensures a.kind == NUMERIC ==> a.precision == b.precision && a.scale == b.scale
  {
    TypeMatchesExactly(t, a);
    TypeMatchesExactly(t, b);
  }

  /** Every expected column of a table is there, with its type. */
  ghost predicate ColumnsTyped(t: LiveTable, spec: TableSpec) {
    forall s :: s in spec.columns ==> s.name in t.columns && OfType(t.columns[s.name].type_, s)
  }

  lemma MatchingIsTyped(t: LiveTable, regclass: map<string, nat>, spec: TableSpec)
    requires Matches(t, regclass, spec)
    ensures ColumnsTyped(t, spec)
  {
    forall s | s in spec.columns ensures s.name in t.columns && OfType(t.columns[s.name].type_, s) {
      assert ColumnMatches(t, s);
      TypeMatchesExactly(t.columns[s.name].type_, s);
    }
  }

  // --- nextval defaults -------------------------------------------------

  const NEXTVAL_HEAD := "nextval('"
  const NEXTVAL_TAIL := "'::regclass)"

  /** A name as it stands between quotes: every quote doubled. */
  function Doubled(name: string): string {
    if name == [] then []
    else (if name[0] == '\'' then "''" else [name[0]]) + Doubled(name[1..])
  }

  /** Undoubles text that (?:[^']|'')* matches. */
  function Undoubled(body: string): Option<string> {
    if body == [] then Some([])
    else if body[0] != '\'' then
      match Undoubled(body[1..]) case None => None case Some(rest) => Some([body[0]] + rest)
    else if |body| >= 2 && body[1] == '\'' then
      match Undoubled(body[2..]) case None => None case Some(rest) => Some("'" + rest)
    else None
  }

  lemma {:induction false} UndoubledIsDoubled(body: string, name: string)
    ensures Undoubled(body) == Some(name) <==> body == Doubled(name)
    decreases |body| + |name|
  {
    if body != [] && name != [] {
      if body[0] != '\'' {
        UndoubledIsDoubled(body[1..], name[1..]);
        assert body == [body[0]] + body[1..] && name == [name[0]] + name[1..];
        assert Doubled(name) != [] && Doubled(name)[0] == name[0];
        if name[0] == body[0] {
          assert Doubled(name)[1..] == Doubled(name[1..]);
        }
      } else if |body| >= 2 && body[1] == '\'' {
        UndoubledIsDoubled(body[2..], name[1..]);
        assert body == "''" + body[2..] && name == [name[0]] + name[1..];
        assert Doubled(name)[0] == name[0];
        if name[0] == '\'' {
          assert Doubled(name)[2..] == Doubled(name[1..]);
        }
      } else {
        assert Doubled(name)[0] == '\'' ==> |Doubled(name)| >= 2 && Doubled(name)[1] == '\'';
      }
    }
  }

  /** The text of a default; the pattern's "$" also stands before a final line feed. */
  predicate IsNextvalOf(default: string, name: string) {
    || default == NEXTVAL_HEAD + Doubled(name) + NEXTVAL_TAIL
    || default == NEXTVAL_HEAD + Doubled(name) + NEXTVAL_TAIL + "\n"
  }

  /** The body of text of the shape HEAD body TAIL. */
  function Between(text: string): Option<string> {
    var h, n := |NEXTVAL_HEAD|, |text| - |NEXTVAL_TAIL|;
    if h <= n && NEXTVAL_HEAD <= text && text[n..] == NEXTVAL_TAIL then Some(text[h..n]) else None
  }

  lemma BetweenIs(text: string, body: string)
    ensures Between(text) == Some(body) <==> text == NEXTVAL_HEAD + body + NEXTVAL_TAIL
  {
    var h, n := |NEXTVAL_HEAD|, |text| - |NEXTVAL_TAIL|;
    if Between(text) == Some(body) {
      assert text == text[..h] + text[h..n] + text[n..];
    }
  }

  /** The sequence a nextval() default names, when the default has that form. */
  function NextvalName(default: string): Option<string> {
    match Between(default)
    case Some(body) => Undoubled(body)
    case None =>
      if default != [] && default[|default| - 1] == '\n' then
        match Between(default[..|default| - 1]) case Some(body) => Undoubled(body) case None => None
      else None
  }

  lemma NextvalNameReads(default: string, name: string)
    ensures NextvalName(default) == Some(name) <==> IsNextvalOf(default, name)
  {
    var body := Doubled(name);
    BetweenIs(default, body);
    if Between(default).Some? {
      BetweenIs(default, Between(default).value);
      UndoubledIsDoubled(Between(default).value, name);
      assert default[|default| - 1] == NEXTVAL_TAIL[|NEXTVAL_TAIL| - 1];
    } else if default != [] && default[|default| - 1] == '\n' {
      var text := default[..|default| - 1];
      assert default == text + "\n";
      BetweenIs(text, body);
      if Between(text).Some? {
        BetweenIs(text, Between(text).value);
        UndoubledIsDoubled(Between(text).value, name);
      }
      if default == NEXTVAL_HEAD + body + NEXTVAL_TAIL + "\n" {
        assert text == NEXTVAL_HEAD + body + NEXTVAL_TAIL;
      }
    }
  }

  // --- What can be wrong with a table -----------------------------------

  datatype Problem =
    | UnexpectedColumns(names: set<ColumnName>)
    | MissingColumn(column: ColumnName)
    | WrongType(column: ColumnName, actualType: LiveType)
    | WrongNullable(column: ColumnName, actualNullable: bool)
    | UnexpectedDefault(column: ColumnName)
    | MissingDefault(column: ColumnName)
    | NotSequenceBacked(column: ColumnName, default: string)
    | NoOwnedSequence(column: ColumnName)
    | AnotherSequence(column: ColumnName, name: string)
    | OddSequence(column: ColumnName, sequence: Sequence)
    | SequenceBehind(column: ColumnName, next: int, max: int)
    | WrongPrimaryKey(actualKey: set<ColumnName>)
    | MissingUnique(unique: set<ColumnName>)
    | MissingForeignKey(columns: seq<ColumnName>)
    | WrongReference(columns: seq<ColumnName>, actualReference: Reference)
    | WrongOnDelete(columns: seq<ColumnName>, actualAction: Option<string>)

  /** The problems of one expected column. */
  ghost predicate ColumnReport(p: Problem, t: LiveTable, s: ColumnSpec) {
    if s.name !in t.columns then p == MissingColumn(s.name)
    else
      var c := t.columns[s.name];
      || (p == WrongType(s.name, c.type_) && !TypeMatches(c.type_, s))
      || (p == WrongNullable(s.name, c.nullable) && c.nullable != s.nullable)
      || (p == UnexpectedDefault(s.name) && c.default.Some? && s.serverDefault == Some(false))
      || (p == MissingDefault(s.name) && c.default.None? && s.serverDefault == Some(true))
  }

  predicate Integers(q: Sequence) {
    q.dataType == "integer" && q.increment == 1 && !q.cycle
  }

  /** The value the sequence would generate next. */
  function NextValue(q: Sequence): int {
    if q.isCalled then q.lastValue + q.increment else q.lastValue
  }

  function Stored(t: LiveTable, column: ColumnName): seq<int> {
    if column in t.values then t.values[column] else []
  }

  ghost predicate IsMax(m: int, values: seq<int>) {
    m in values && forall v :: v in values ==> v <= m
  }

  /** The sequence owned by the column, when the column's default names exactly that one. */
  function BackingSequence(t: LiveTable, regclass: map<string, nat>, column: ColumnName, default: string)
    : Option<Sequence>
  {
    match NextvalName(default)
    case None => None
    case Some(name) =>
      if column in t.owned && name in regclass && regclass[name] == t.owned[column].oid then Some(t.owned[column])
      else None
  }

  /** The problems of one serial column; a column with no default was reported already. */
  ghost predicate SequenceReport(p: Problem, t: LiveTable, regclass: map<string, nat>, column: ColumnName,
          default: Option<string>) {
    && default.Some?
    && var name := NextvalName(default.value);
       var backing := BackingSequence(t, regclass, column, default.value);
       if name.None? then p == NotSequenceBacked(column, default.value)
       else if column !in t.owned then p == NoOwnedSequence(column)
       else if backing.None? then p == AnotherSequence(column, name.value)
       else
         || (p == OddSequence(column, backing.value) && !Integers(backing.value))
         || (p.SequenceBehind? && p == SequenceBehind(column, NextValue(backing.value), p.max)
             && IsMax(p.max, Stored(t, column)) && NextValue(backing.value) <= p.max)
  }

  /** The catalog lookup of a sequence whose name needs quoting finds no row and raises. */
  predicate SequenceRaises(t: LiveTable, regclass: map<string, nat>, column: ColumnName, default: Option<string>) {
    && default.Some?
    && var backing := BackingSequence(t, regclass, column, default.value);
       backing.Some? && !backing.value.plain
  }

  /** The first foreign key on exactly these columns. */
  function FirstOn(fks: seq<LiveForeignKey>, columns: seq<ColumnName>): Option<LiveForeignKey> {
    if fks == [] then None
    else if fks[0].columns == columns then Some(fks[0])
    else FirstOn(fks[1..], columns)
  }

  /** Reflection may leave the application schema unnamed. */
  function ActualReference(fk: LiveForeignKey): Reference {
    Reference(if fk.schema.None? || fk.schema.value == "" then PUBLIC else fk.schema.value, fk.table, fk.refColumns)
  }

  predicate DeletesAs(actual: Option<string>, expected: OnDelete) {
    match expected
    case Unchecked => true
    case NoAction => actual.None?
    case Exactly(action) => actual == Some(action)
  }

  ghost predicate ForeignKeyReport(p: Problem, t: LiveTable, f: ForeignKeySpec) {
    match FirstOn(t.foreignKeys, f.columns)
    case None => p == MissingForeignKey(f.columns)
    case Some(fk) =>
      if ActualReference(fk) != f.reference then p == WrongReference(f.columns, ActualReference(fk))
      else p == WrongOnDelete(f.columns, fk.onDelete) && !DeletesAs(fk.onDelete, f.onDelete)
  }

  function Names(columns: seq<ColumnSpec>): set<ColumnName> {
    set s | s in columns :: s.name
  }

  function ToSet<T>(s: seq<T>): set<T> {
    set x | x in s
  }

  function DefaultOf(t: LiveTable, column: ColumnName): Option<string> {
    if column in t.columns then t.columns[column].default else None
  }

  /** Everything that must be reported about a table. */
  ghost predicate Reported(p: Problem, t: LiveTable, regclass: map<string, nat>, spec: TableSpec) {
    || (p == UnexpectedColumns(t.columns.Keys - Names(spec.columns)) && t.columns.Keys - Names(spec.columns) != {})
    || ColumnsReport(p, t, spec.columns, |spec.columns|)
    || SerialsReport(p, t, regclass, spec.columns)
    || (p == WrongPrimaryKey(t.primaryKey) && t.primaryKey != ToSet(spec.primaryKey))
    || UniquesReport(p, t, spec.uniques, |spec.uniques|)
    || ForeignKeysReport(p, t, spec.foreignKeys, |spec.foreignKeys|)
  }

  predicate UniqueReport(p: Problem, t: LiveTable, u: set<ColumnName>) {
    p == MissingUnique(u) && u !in t.uniques
  }

  predicate IsSerial(t: LiveTable, s: ColumnSpec) {
    s.serialPk && s.name in t.columns
  }

  ghost predicate SerialReport(p: Problem, t: LiveTable, regclass: map<string, nat>, s: ColumnSpec) {
    IsSerial(t, s) && SequenceReport(p, t, regclass, s.name, t.columns[s.name].default)
  }

  predicate SerialRaises(t: LiveTable, regclass: map<string, nat>, s: ColumnSpec) {
    IsSerial(t, s) && SequenceRaises(t, regclass, s.name, t.columns[s.name].default)
  }

  predicate Raises(t: LiveTable, regclass: map<string, nat>, spec: TableSpec) {
    exists i :: 0 <= i < |spec.columns| && SerialRaises(t, regclass, spec.columns[i])
  }

  // --- What a table must look like --------------------------------------

  predicate ColumnMatches(t: LiveTable, s: ColumnSpec) {
    && s.name in t.columns
    && var c := t.columns[s.name];
    && TypeMatches(c.type_, s)
    && c.nullable == s.nullable
    && (s.serverDefault.Some? ==> c.default.Some? == s.serverDefault.value)
  }

  /** Inserts that leave the column out draw from its own well-behaved sequence, which is ahead of
      every stored value. */
  ghost predicate SequenceSound(t: LiveTable, regclass: map<string, nat>, column: ColumnName)
    requires DefaultOf(t, column).Some?
  {
    && column in t.owned
    && var q := t.owned[column];
    && q.plain && Integers(q)
    && (forall v :: v in Stored(t, column) ==> v < NextValue(q))
    && exists name :: IsNextvalOf(DefaultOf(t, column).value, name) && name in regclass && regclass[name] == q.oid
  }

  ghost predicate SerialMatches(t: LiveTable, regclass: map<string, nat>, s: ColumnSpec) {
    s.serialPk && DefaultOf(t, s.name).Some? ==> SequenceSound(t, regclass, s.name)
  }

  predicate ForeignKeyMatches(t: LiveTable, f: ForeignKeySpec) {
    var fk := FirstOn(t.foreignKeys, f.columns);
    fk.Some? && ActualReference(fk.value) == f.reference && DeletesAs(fk.value.onDelete, f.onDelete)
  }

  ghost predicate Matches(t: LiveTable, regclass: map<string, nat>, spec: TableSpec) {
    && t.columns.Keys == Names(spec.columns)
    && (forall s :: s in spec.columns ==> ColumnMatches(t, s) && SerialMatches(t, regclass, s))
    && t.primaryKey == ToSet(spec.primaryKey)
    && (forall u :: u in spec.uniques ==> u in t.uniques)
    && (forall f :: f in spec.foreignKeys ==> ForeignKeyMatches(t, f))
  }

  // --- The same, spelled out --------------------------------------------

  /** The column has its type, may be NULL as expected, and has a default or none as expected. */
  predicate ColumnLooks(c: LiveColumn, s: ColumnSpec) {
    && OfType(c.type_, s)
    && (c.nullable <==> s.nullable)
    && (s.serverDefault == Some(true) ==> c.default.Some?)
    && (s.serverDefault == Some(false) ==> c.default == None)
  }

  /** The key leads to the expected columns of the expected table and does what is expected on delete;
      a key without a schema leads to "public". */
  predicate KeyLooks(fk: LiveForeignKey, f: ForeignKeySpec) {
    && fk.table == f.reference.table && fk.refColumns == f.reference.columns
    && (match fk.schema case Some(schema) => (if schema == "" then "public" else schema) case None => "public")
       == f.reference.schema
    && (f.onDelete == NoAction ==> fk.onDelete == None)
    && (f.onDelete.Exactly? ==> fk.onDelete == Some(f.onDelete.action))
  }

  ghost predicate FirstKeyLooks(fks: seq<LiveForeignKey>, f: ForeignKeySpec) {
    exists i :: 0 <= i < |fks| && fks[i].columns == f.columns && KeyLooks(fks[i], f)
                && forall j :: 0 <= j < i ==> fks[j].columns != f.columns
  }

  /** The column draws from its own plain sequence of integers, one by one and without cycling, whose
      next value is above every stored one. */
  ghost predicate SerialLooks(t: LiveTable, regclass: map<string, nat>, column: ColumnName, default: string) {
    && column in t.owned
    && t.owned[column].dataType == "integer" && t.owned[column].increment == 1 && !t.owned[column].cycle
    && t.owned[column].plain
    && (forall v :: v in Stored(t, column) ==>
          v < if t.owned[column].isCalled then t.owned[column].lastValue + 1 else t.owned[column].lastValue)
    && exists name :: IsNextvalOf(default, name) && name in regclass && regclass[name] == t.owned[column].oid
  }

  ghost predicate TableLooks(t: LiveTable, regclass: map<string, nat>, spec: TableSpec) {
    && (forall s :: s in spec.columns ==> s.name in t.columns && ColumnLooks(t.columns[s.name], s))
    && (forall n :: n in t.columns ==> exists s :: s in spec.columns && s.name == n)
    && (forall n :: n in t.primaryKey <==> n in spec.primaryKey)
    && (forall u :: u in spec.uniques ==> u in t.uniques)
    && (forall f :: f in spec.foreignKeys ==> FirstKeyLooks(t.foreignKeys, f))
    && (forall s :: s in spec.columns && s.serialPk && s.name in t.columns && t.columns[s.name].default.Some? ==>
          SerialLooks(t, regclass, s.name, t.columns[s.name].default.value))
  }

  lemma ColumnLooksIs(t: LiveTable, s: ColumnSpec)
    ensures ColumnMatches(t, s) <==> s.name in t.columns && ColumnLooks(t.columns[s.name], s)
  {
    if s.name in t.columns {
      TypeMatchesExactly(t.columns[s.name].type_, s);
    }
  }

  lemma {:induction false} FirstKeyLooksIs(fks: seq<LiveForeignKey>, f: ForeignKeySpec)
    ensures FirstKeyLooks(fks, f) <==> FirstOn(fks, f.columns).Some? && KeyLooks(FirstOn(fks, f.columns).value, f)
  {
    if fks != [] && fks[0].columns != f.columns {
      var rest := fks[1..];
      FirstKeyLooksIs(rest, f);
      if FirstKeyLooks(rest, f) {
        var i :| 0 <= i < |rest| && rest[i].columns == f.columns && KeyLooks(rest[i], f)
                 && forall j :: 0 <= j < i ==> rest[j].columns != f.columns;
        assert fks[i + 1] == rest[i] && forall j :: 0 < j < i + 1 ==> fks[j] == rest[j - 1];
      }
      if FirstKeyLooks(fks, f) {
        var i :| 0 <= i < |fks| && fks[i].columns == f.columns && KeyLooks(fks[i], f)
                 && forall j :: 0 <= j < i ==> fks[j].columns != f.columns;
        assert rest[i - 1] == fks[i] && forall j :: 0 <= j < i - 1 ==> rest[j] == fks[j + 1];
      }
    }
  }

  lemma KeyLooksIs(t: LiveTable, f: ForeignKeySpec)
    ensures ForeignKeyMatches(t, f) <==> FirstKeyLooks(t.foreignKeys, f)
  {
    FirstKeyLooksIs(t.foreignKeys, f);
  }

  lemma SerialLooksIs(t: LiveTable, regclass: map<string, nat>, column: ColumnName)
    requires DefaultOf(t, column).Some?
    ensures SequenceSound(t, regclass, column) <==> SerialLooks(t, regclass, column, DefaultOf(t, column).value)
  {
  }

  lemma NamesLook(t: LiveTable, spec: TableSpec)
    requires forall s :: s in spec.columns ==> s.name in t.columns
    ensures t.columns.Keys == Names(spec.columns)
       <==> forall n :: n in t.columns ==> exists s :: s in spec.columns && s.name == n
    ensures t.primaryKey == ToSet(spec.primaryKey) <==> forall n :: n in t.primaryKey <==> n in spec.primaryKey
  {
    forall n ensures n in Names(spec.columns) <==> exists s :: s in spec.columns && s.name == n {
    }
  }

  /** A table matches exactly if it looks as expected in every one of these respects. */
  lemma MatchesExactlyWhenItLooks(t: LiveTable, regclass: map<string, nat>, spec: TableSpec)
    ensures Matches(t, regclass, spec) <==> TableLooks(t, regclass, spec)
  {
    forall s | s in spec.columns
      ensures ColumnMatches(t, s) <==> s.name in t.columns && ColumnLooks(t.columns[s.name], s)
      ensures s.name in t.columns ==>
              (SerialMatches(t, regclass, s) <==> (s.serialPk && t.columns[s.name].default.Some? ==>
                SerialLooks(t, regclass, s.name, t.columns[s.name].default.value)))
    {
      ColumnLooksIs(t, s);
      if s.name in t.columns && t.columns[s.name].default.Some? {
        SerialLooksIs(t, regclass, s.name);
      }
    }
    forall f | f in spec.foreignKeys ensures ForeignKeyMatches(t, f) <==> FirstKeyLooks(t.foreignKeys, f) {
      KeyLooksIs(t, f);
    }
    if forall s :: s in spec.columns ==> s.name in t.columns {
      NamesLook(t, spec);
    }
  }

  // --- The comparison ---------------------------------------------------

  lemma {:induction false} MaxExists(values: seq<int>)
    requires values != []
    ensures exists m :: IsMax(m, values)
  {
    var v, rest := values[0], values[1..];
    assert values == [v] + rest;
    if rest == [] {
      assert IsMax(v, values);
    } else {
      MaxExists(rest);
      var m :| IsMax(m, rest);
      assert IsMax(if m < v then v else m, values);
    }
  }

  method SerialSequenceProblems(t: LiveTable, regclass: map<string, nat>, column: ColumnName, default: Option<string>)
    returns (result: Option<seq<Problem>>)
    ensures result.None? <==> SequenceRaises(t, regclass, column, default)
    ensures result.Some? ==> forall p :: p in result.value <==> SequenceReport(p, t, regclass, column, default)
  {
    if default.None? {
      return Some([]);
    }
    var name := NextvalName(default.value);
    if name.None? {
      return Some([NotSequenceBacked(column, default.value)]);
    }
    if column !in t.owned {
      return Some([NoOwnedSequence(column)]);
    }
    var q := t.owned[column];
    if name.value !in regclass || regclass[name.value] != q.oid {
      return Some([AnotherSequence(column, name.value)]);
    }
    if !q.plain {
      return None;
    }
    var problems := [];
    if q.dataType != "integer" || q.increment != 1 || q.cycle {
      problems := problems + [OddSequence(column, q)];
    }
    var next := if !q.isCalled then q.lastValue else q.lastValue + q.increment;
    var values := Stored(t, column);
    if values != [] {
      MaxExists(values);
      var max :| max in values && forall v :: v in values ==> v <= max;
      if next <= max {
        problems := problems + [SequenceBehind(column, next, max)];
      }
    }
    return Some(problems);
  }

  method ColumnProblems(t: LiveTable, s: ColumnSpec) returns (problems: seq<Problem>)
    ensures forall p :: p in problems <==> ColumnReport(p, t, s)
  {
    if s.name !in t.columns {
      return [MissingColumn(s.name)];
    }
    var actual := t.columns[s.name];
    problems := [];
    if !TypeMatches(actual.type_, s) {
      problems := problems + [WrongType(s.name, actual.type_)];
    }
    if actual.nullable != s.nullable {
      problems := problems + [WrongNullable(s.name, actual.nullable)];
    }
    if s.serverDefault.Some? {
      var hasDefault := actual.default.Some?;
      if hasDefault != s.serverDefault.value {
        problems := problems + [if hasDefault then UnexpectedDefault(s.name) else MissingDefault(s.name)];
      }
    }
  }

  method ForeignKeyProblems(t: LiveTable, f: ForeignKeySpec) returns (problems: seq<Problem>)
    ensures forall p :: p in problems <==> ForeignKeyReport(p, t, f)
  {
    var i := 0;
    while i < |t.foreignKeys| && t.foreignKeys[i].columns != f.columns
      invariant 0 <= i <= |t.foreignKeys|
      invariant FirstOn(t.foreignKeys, f.columns) == FirstOn(t.foreignKeys[i..], f.columns)
    {
      i := i + 1;
    }
    if i == |t.foreignKeys| {
      return [MissingForeignKey(f.columns)];
    }
    var match_ := t.foreignKeys[i];
    var reference := Reference(
      if match_.schema == None || match_.schema == Some("") then PUBLIC else match_.schema.value,
      match_.table, match_.refColumns);
    problems := [];
    if reference != f.reference {
      problems := [WrongReference(f.columns, reference)];
    } else if f.onDelete != Unchecked {
      if f.onDelete == NoAction {
        if match_.onDelete.Some? {
          problems := [WrongOnDelete(f.columns, match_.onDelete)];
        }
      } else if match_.onDelete != Some(f.onDelete.action) {
        problems := [WrongOnDelete(f.columns, match_.onDelete)];
      }
    }
  }

  function CheckOf(t: LiveTable, s: ColumnSpec): (ColumnName, Option<string>) {
    (s.name, DefaultOf(t, s.name))
  }

  ghost predicate ColumnsReport(p: Problem, t: LiveTable, specs: seq<ColumnSpec>, n: nat)
    requires n <= |specs|
  {
    exists i :: 0 <= i < n && ColumnReport(p, t, specs[i])
  }

  method AllColumnProblems(t: LiveTable, specs: seq<ColumnSpec>)
    returns (problems: seq<Problem>, checks: seq<(ColumnName, Option<string>)>)
    ensures forall p :: p in problems <==> ColumnsReport(p, t, specs, |specs|)
    ensures ChecksOf(t, specs, checks)
  {
    problems, checks := [], [];
    var n := 0;
    while n < |specs|
      invariant 0 <= n <= |specs|
      invariant forall p :: p in problems <==> ColumnsReport(p, t, specs, n)
      invariant forall i :: 0 <= i < n && IsSerial(t, specs[i]) ==> CheckOf(t, specs[i]) in checks
      invariant forall c :: c in checks ==> exists i :: 0 <= i < n && IsSerial(t, specs[i]) && c == CheckOf(t, specs[i])
    {
      var more := ColumnProblems(t, specs[n]);
      problems := problems + more;
      if specs[n].serialPk && specs[n].name in t.columns {
        checks := checks + [CheckOf(t, specs[n])];
      }
      n := n + 1;
    }
  }

  ghost predicate ChecksReport(p: Problem, t: LiveTable, regclass: map<string, nat>,
          checks: seq<(ColumnName, Option<string>)>, n: nat)
    requires n <= |checks|
  {
    exists i :: 0 <= i < n && CheckReports(p, t, regclass, checks[i])
  }

  ghost predicate CheckReports(p: Problem, t: LiveTable, regclass: map<string, nat>, c: (ColumnName, Option<string>)) {
    SequenceReport(p, t, regclass, c.0, c.1)
  }

  predicate CheckRaises(t: LiveTable, regclass: map<string, nat>, c: (ColumnName, Option<string>)) {
    SequenceRaises(t, regclass, c.0, c.1)
  }

  method AllSequenceProblems(t: LiveTable, regclass: map<string, nat>, checks: seq<(ColumnName, Option<string>)>)
    returns (result: Option<seq<Problem>>)
    ensures result.None? <==> exists i :: 0 <= i < |checks| && CheckRaises(t, regclass, checks[i])
    ensures result.Some? ==> forall p :: p in result.value <==> ChecksReport(p, t, regclass, checks, |checks|)
  {
    var problems := [];
    var n := 0;
    while n < |checks|
      invariant 0 <= n <= |checks|
      invariant forall i :: 0 <= i < n ==> !CheckRaises(t, regclass, checks[i])
      invariant forall p :: p in problems <==> ChecksReport(p, t, regclass, checks, n)
    {
      var more := SerialSequenceProblems(t, regclass, checks[n].0, checks[n].1);
      if more.None? {
        assert CheckRaises(t, regclass, checks[n]);
        return None;
      }
      assert forall p :: p in more.value <==> CheckReports(p, t, regclass, checks[n]);
      problems := problems + more.value;
      n := n + 1;
    }
    return Some(problems);
  }

  ghost predicate ForeignKeysReport(p: Problem, t: LiveTable, specs: seq<ForeignKeySpec>, n: nat)
    requires n <= |specs|
  {
    exists i :: 0 <= i < n && ForeignKeyReport(p, t, specs[i])
  }

  method AllForeignKeyProblems(t: LiveTable, specs: seq<ForeignKeySpec>) returns (problems: seq<Problem>)
    ensures forall p :: p in problems <==> ForeignKeysReport(p, t, specs, |specs|)
  {
    problems := [];
    var n := 0;
    while n < |specs|
      invariant 0 <= n <= |specs|
      invariant forall p :: p in problems <==> ForeignKeysReport(p, t, specs, n)
    {
      var more := ForeignKeyProblems(t, specs[n]);
      problems := problems + more;
      n := n + 1;
    }
  }

  predicate UniquesReport(p: Problem, t: LiveTable, uniques: seq<set<ColumnName>>, n: nat)
    requires n <= |uniques|
  {
    exists i :: 0 <= i < n && UniqueReport(p, t, uniques[i])
  }

  method AllUniqueProblems(t: LiveTable, uniques: seq<set<ColumnName>>) returns (problems: seq<Problem>)
    ensures forall p :: p in problems <==> UniquesReport(p, t, uniques, |uniques|)
  {
    problems := [];
    var n := 0;
    while n < |uniques|
      invariant 0 <= n <= |uniques|
      invariant forall p :: p in problems <==> UniquesReport(p, t, uniques, n)
    {
      if uniques[n] !in t.uniques {
        problems := problems + [MissingUnique(uniques[n])];
      }
      n := n + 1;
    }
  }

  ghost predicate SerialsReport(p: Problem, t: LiveTable, regclass: map<string, nat>, specs: seq<ColumnSpec>) {
    exists i :: 0 <= i < |specs| && SerialReport(p, t, regclass, specs[i])
  }

  /** `checks` holds the serial columns that are there. */
  ghost predicate ChecksOf(t: LiveTable, specs: seq<ColumnSpec>, checks: seq<(ColumnName, Option<string>)>) {
    && (forall i :: 0 <= i < |specs| && IsSerial(t, specs[i]) ==> CheckOf(t, specs[i]) in checks)
    && (forall c :: c in checks ==> exists i :: 0 <= i < |specs| && IsSerial(t, specs[i]) && c == CheckOf(t, specs[i]))
  }

  lemma ChecksRaiseAsSerials(t: LiveTable, regclass: map<string, nat>, specs: seq<ColumnSpec>,
          checks: seq<(ColumnName, Option<string>)>)
    requires ChecksOf(t, specs, checks)
    ensures (exists i :: 0 <= i < |checks| && CheckRaises(t, regclass, checks[i]))
            <==> (exists i :: 0 <= i < |specs| && SerialRaises(t, regclass, specs[i]))
  {
    if i :| 0 <= i < |checks| && CheckRaises(t, regclass, checks[i]) {
      assert checks[i] in checks;
      var j :| 0 <= j < |specs| && IsSerial(t, specs[j]) && checks[i] == CheckOf(t, specs[j]);
      assert SerialRaises(t, regclass, specs[j]);
    }
    if j :| 0 <= j < |specs| && SerialRaises(t, regclass, specs[j]) {
      var i :| 0 <= i < |checks| && checks[i] == CheckOf(t, specs[j]);
      assert CheckRaises(t, regclass, checks[i]);
    }
  }

  lemma ChecksReportAsSerials(t: LiveTable, regclass: map<string, nat>, specs: seq<ColumnSpec>,
          checks: seq<(ColumnName, Option<string>)>, p: Problem)
    requires ChecksOf(t, specs, checks) && ChecksReport(p, t, regclass, checks, |checks|)
    ensures SerialsReport(p, t, regclass, specs)
  {
    var i :| 0 <= i < |checks| && CheckReports(p, t, regclass, checks[i]);
    assert checks[i] in checks;
    var j :| 0 <= j < |specs| && IsSerial(t, specs[j]) && checks[i] == CheckOf(t, specs[j]);
    CheckIsSerial(p, t, regclass, specs[j]);
  }

  lemma SerialsReportAsChecks(t: LiveTable, regclass: map<string, nat>, specs: seq<ColumnSpec>,
          checks: seq<(ColumnName, Option<string>)>, p: Problem)
    requires ChecksOf(t, specs, checks) && SerialsReport(p, t, regclass, specs)
    ensures ChecksReport(p, t, regclass, checks, |checks|)
  {
    var j :| 0 <= j < |specs| && SerialReport(p, t, regclass, specs[j]);
    CheckIsSerial(p, t, regclass, specs[j]);
    var i :| 0 <= i < |checks| && checks[i] == CheckOf(t, specs[j]);
  }

  lemma CheckIsSerial(p: Problem, t: LiveTable, regclass: map<string, nat>, s: ColumnSpec)
    requires IsSerial(t, s)
    ensures CheckReports(p, t, regclass, CheckOf(t, s)) <==> SerialReport(p, t, regclass, s)
  {
  }

  // --- Nothing to report exactly when the table matches -----------------

  lemma ColumnClean(t: LiveTable, s: ColumnSpec)
    ensures (forall p :: !ColumnReport(p, t, s)) <==> ColumnMatches(t, s)
  {
    if s.name !in t.columns {
      assert ColumnReport(MissingColumn(s.name), t, s);
    } else if !ColumnMatches(t, s) {
      var c := t.columns[s.name];
      assert || ColumnReport(WrongType(s.name, c.type_), t, s)
             || ColumnReport(WrongNullable(s.name, c.nullable), t, s)
             || ColumnReport(UnexpectedDefault(s.name), t, s)
             || ColumnReport(MissingDefault(s.name), t, s);
    }
  }

  lemma SequenceClean(t: LiveTable, regclass: map<string, nat>, column: ColumnName)
    requires DefaultOf(t, column).Some?
    ensures var d := DefaultOf(t, column);
            !SequenceRaises(t, regclass, column, d) && (forall p :: !SequenceReport(p, t, regclass, column, d))
            <==> SequenceSound(t, regclass, column)
  {
    var d := DefaultOf(t, column);
    var text := d.value;
    forall name ensures NextvalName(text) == Some(name) <==> IsNextvalOf(text, name) {
      NextvalNameReads(text, name);
    }
    var backing := BackingSequence(t, regclass, column, text);
    if NextvalName(text).None? {
      assert SequenceReport(NotSequenceBacked(column, text), t, regclass, column, d);
    } else if column !in t.owned {
      assert SequenceReport(NoOwnedSequence(column), t, regclass, column, d);
    } else if backing.None? {
      assert SequenceReport(AnotherSequence(column, NextvalName(text).value), t, regclass, column, d);
    } else {
      BackedClean(t, regclass, column, backing.value);
      assert IsNextvalOf(text, NextvalName(text).value);
    }
  }

  /** The two checks of a sequence that is the column's own. */
  lemma BackedClean(t: LiveTable, regclass: map<string, nat>, column: ColumnName, q: Sequence)
    requires DefaultOf(t, column).Some? && BackingSequence(t, regclass, column, DefaultOf(t, column).value) == Some(q)
    ensures (forall p :: !SequenceReport(p, t, regclass, column, DefaultOf(t, column)))
            <==> Integers(q) && forall v :: v in Stored(t, column) ==> v < NextValue(q)
  {
    var d, values := DefaultOf(t, column), Stored(t, column);
    if !Integers(q) {
      assert SequenceReport(OddSequence(column, q), t, regclass, column, d);
    }
    if v :| v in values && v >= NextValue(q) {
      MaxExists(values);
      var m :| IsMax(m, values);
      assert SequenceReport(SequenceBehind(column, NextValue(q), m), t, regclass, column, d);
    }
  }

  lemma SerialClean(t: LiveTable, regclass: map<string, nat>, s: ColumnSpec)
    ensures !SerialRaises(t, regclass, s) && (forall p :: !SerialReport(p, t, regclass, s))
            <==> SerialMatches(t, regclass, s)
  {
    if IsSerial(t, s) && DefaultOf(t, s.name).Some? {
      SequenceClean(t, regclass, s.name);
      if p :| SequenceReport(p, t, regclass, s.name, DefaultOf(t, s.name)) {
        assert SerialReport(p, t, regclass, s);
      }
    }
  }

  lemma ForeignKeyClean(t: LiveTable, f: ForeignKeySpec)
    ensures (forall p :: !ForeignKeyReport(p, t, f)) <==> ForeignKeyMatches(t, f)
  {
    match FirstOn(t.foreignKeys, f.columns)
    case None => assert ForeignKeyReport(MissingForeignKey(f.columns), t, f);
    case Some(fk) =>
      if ActualReference(fk) != f.reference {
        assert ForeignKeyReport(WrongReference(f.columns, ActualReference(fk)), t, f);
      } else if !DeletesAs(fk.onDelete, f.onDelete) {
        assert ForeignKeyReport(WrongOnDelete(f.columns, fk.onDelete), t, f);
      }
  }

  ghost predicate AllClean(t: LiveTable, regclass: map<string, nat>, spec: TableSpec) {
    !Raises(t, regclass, spec) && forall p :: !Reported(p, t, regclass, spec)
  }

  lemma CleanMatches(t: LiveTable, regclass: map<string, nat>, spec: TableSpec)
    requires AllClean(t, regclass, spec)
    ensures Matches(t, regclass, spec)
  {
    forall s | s in spec.columns ensures ColumnMatches(t, s) && SerialMatches(t, regclass, s) {
      var i :| 0 <= i < |spec.columns| && spec.columns[i] == s;
      forall p ensures !ColumnReport(p, t, s) && !SerialReport(p, t, regclass, s) {
        assert !Reported(p, t, regclass, spec);
        assert ColumnsReport(p, t, spec.columns, |spec.columns|) || !ColumnReport(p, t, spec.columns[i]);
        assert SerialsReport(p, t, regclass, spec.columns) || !SerialReport(p, t, regclass, spec.columns[i]);
      }
      ColumnClean(t, s);
      SerialClean(t, regclass, s);
    }
    forall f | f in spec.foreignKeys ensures ForeignKeyMatches(t, f) {
      var i :| 0 <= i < |spec.foreignKeys| && spec.foreignKeys[i] == f;
      forall p ensures !ForeignKeyReport(p, t, f) {
        assert !Reported(p, t, regclass, spec);
        assert ForeignKeysReport(p, t, spec.foreignKeys, |spec.foreignKeys|)
                || !ForeignKeyReport(p, t, spec.foreignKeys[i]);
      }
      ForeignKeyClean(t, f);
    }
    forall u | u in spec.uniques ensures u in t.uniques {
      var i :| 0 <= i < |spec.uniques| && spec.uniques[i] == u;
      assert !Reported(MissingUnique(u), t, regclass, spec);
      assert UniquesReport(MissingUnique(u), t, spec.uniques, |spec.uniques|)
              || !UniqueReport(MissingUnique(u), t, spec.uniques[i]);
    }
    NamesMatch(t, regclass, spec);
  }

  lemma NamesMatch(t: LiveTable, regclass: map<string, nat>, spec: TableSpec)
    requires AllClean(t, regclass, spec)
    requires forall s :: s in spec.columns ==> ColumnMatches(t, s)
    ensures t.columns.Keys == Names(spec.columns) && t.primaryKey == ToSet(spec.primaryKey)
  {
    assert !Reported(WrongPrimaryKey(t.primaryKey), t, regclass, spec);
    assert !Reported(UnexpectedColumns(t.columns.Keys - Names(spec.columns)), t, regclass, spec);
    forall n | n in Names(spec.columns) ensures n in t.columns {
      var s :| s in spec.columns && s.name == n;
      assert ColumnMatches(t, s);
    }
    forall n | n in t.columns ensures n in Names(spec.columns) {
      assert n in Names(spec.columns) || n in t.columns.Keys - Names(spec.columns);
    }
  }

  lemma MatchesClean(t: LiveTable, regclass: map<string, nat>, spec: TableSpec)
    requires Matches(t, regclass, spec)
    ensures AllClean(t, regclass, spec)
  {
    forall i | 0 <= i < |spec.columns|
      ensures !SerialRaises(t, regclass, spec.columns[i])
      ensures forall p :: !ColumnReport(p, t, spec.columns[i]) && !SerialReport(p, t, regclass, spec.columns[i])
    {
      assert spec.columns[i] in spec.columns;
      ColumnClean(t, spec.columns[i]);
      SerialClean(t, regclass, spec.columns[i]);
    }
    forall i | 0 <= i < |spec.foreignKeys| ensures forall p :: !ForeignKeyReport(p, t, spec.foreignKeys[i]) {
      assert spec.foreignKeys[i] in spec.foreignKeys;
      ForeignKeyClean(t, spec.foreignKeys[i]);
    }
    assert forall i :: 0 <= i < |spec.uniques| ==> spec.uniques[i] in spec.uniques;
  }

  /** A table is clean exactly when it looks as the spec says. */
  lemma CleanExactlyWhenMatches(t: LiveTable, regclass: map<string, nat>, spec: TableSpec)
    ensures AllClean(t, regclass, spec) <==> Matches(t, regclass, spec)
  {
    if AllClean(t, regclass, spec) {
      CleanMatches(t, regclass, spec);
    }
    if Matches(t, regclass, spec) {
      MatchesClean(t, regclass, spec);
    }
  }

  /** Reports every difference and nothing else, unless a sequence lookup raises. */
  method DescribeTableProblems(t: LiveTable, regclass: map<string, nat>, spec: TableSpec)
          returns (result: Option<seq<Problem>>)
    ensures result.None? <==> Raises(t, regclass, spec)
    ensures result.Some? ==> forall p :: p in result.value <==> Reported(p, t, regclass, spec)
    ensures result == Some([]) <==> Matches(t, regclass, spec)
    ensures result == Some([]) <==> TableLooks(t, regclass, spec)
  {
    MatchesExactlyWhenItLooks(t, regclass, spec);
    CleanExactlyWhenMatches(t, regclass, spec);
    var problems := [];
    var unexpected := t.columns.Keys - Names(spec.columns);
    if unexpected != {} {
      problems := problems + [UnexpectedColumns(unexpected)];
    }
    var columnProblems, checks := AllColumnProblems(t, spec.columns);
    var sequenceProblems := AllSequenceProblems(t, regclass, checks);
    ChecksRaiseAsSerials(t, regclass, spec.columns, checks);
    if sequenceProblems.None? {
      return None;
    }
    problems := problems + columnProblems + sequenceProblems.value;
    if t.primaryKey != ToSet(spec.primaryKey) {
      problems := problems + [WrongPrimaryKey(t.primaryKey)];
    }
    var uniqueProblems := AllUniqueProblems(t, spec.uniques);
    var foreignKeyProblems := AllForeignKeyProblems(t, spec.foreignKeys);
    problems := problems + uniqueProblems + foreignKeyProblems;
    forall p ensures p in problems <==> Reported(p, t, regclass, spec) {
      if ChecksReport(p, t, regclass, checks, |checks|) {
        ChecksReportAsSerials(t, regclass, spec.columns, checks, p);
      }
      if SerialsReport(p, t, regclass, spec.columns) {
        SerialsReportAsChecks(t, regclass, spec.columns, checks, p);
      }
    }
    assert problems == [] || problems[0] in problems;
    return Some(problems);
  }
}
