/**
 * The dialect adapter of the MCP database server: database detection from a
 * connection URL, the memoised database type, the PostgreSQL and SQLite
 * strategy records and the normalisers that turn each dialect's catalogue
 * rows into one common shape.
 */
module DbAdapter {
  import opened Text

  datatype DatabaseType = Postgresql | Sqlite

  /* ---------------------------------------------------------------------- */
  /* Detection and the memoised type                                         */
  /* ---------------------------------------------------------------------- */

  /** `url || process.env.DATABASE_URL || ''`: an empty string counts as absent. */
  function ResolveUrl(url: Option<string>, envUrl: Option<string>): (r: string)
    ensures url.Some? && url.value != "" ==> r == url.value
    ensures (url.None? || url.value == "") && envUrl.Some? ==> r == envUrl.value
    ensures (url.None? || url.value == "") && envUrl.None? ==> r == ""
  {
    if url.Some? && url.value != "" then url.value
    else if envUrl.Some? then envUrl.value
    else ""
  }

  /** The URL names an SQLite file. */
  predicate SqliteMarked(u: string) {
    StartsWith(u, "file:") || EndsWith(u, ".db") || EndsWith(u, ".sqlite")
  }

  /** The URL looks like a PostgreSQL server. */
  predicate PostgresMarked(u: string) {
    StartsWith(u, "postgresql://") || StartsWith(u, "postgres://")
    || Contains(u, "localhost") || Contains(u, "127.0.0.1")
  }

  function DetectDatabaseType(u: string): (r: DatabaseType)
    ensures r == Postgresql <==> !SqliteMarked(u) && PostgresMarked(u)
  {
    if StartsWith(u, "file:") || EndsWith(u, ".db") || EndsWith(u, ".sqlite") then Sqlite
    else if StartsWith(u, "postgresql://") || StartsWith(u, "postgres://") then Postgresql
    else if Contains(u, "localhost") || Contains(u, "127.0.0.1") then Postgresql
    else Sqlite
  }

  /** A `.db` or `.sqlite` file name wins over any scheme, `postgres://` included. */
  lemma SqliteSuffixWins(p: string)
    ensures DetectDatabaseType(p + ".db") == Sqlite
    ensures DetectDatabaseType(p + ".sqlite") == Sqlite
  {
    assert (p + ".db")[|p + ".db"| - 3..] == ".db";
    assert (p + ".sqlite")[|p + ".sqlite"| - 7..] == ".sqlite";
  }

  lemma PostgresSchemeWithDbFile()
    ensures DetectDatabaseType("postgres://h/x.db") == Sqlite
  {
    SqliteSuffixWins("postgres://h/x");
  }

  /** A PostgreSQL scheme gives PostgreSQL unless the URL ends in an SQLite file name. */
  lemma PostgresScheme(rest: string)
    requires !EndsWith(rest, ".db") && !EndsWith(rest, ".sqlite")
    ensures DetectDatabaseType("postgres://" + rest) == Postgresql
    ensures DetectDatabaseType("postgresql://" + rest) == Postgresql
  {
    EndsWithAfterScheme("postgres://", rest, ".db");
    EndsWithAfterScheme("postgres://", rest, ".sqlite");
    EndsWithAfterScheme("postgresql://", rest, ".db");
    EndsWithAfterScheme("postgresql://", rest, ".sqlite");
    var a := "postgres://" + rest;
    var b := "postgresql://" + rest;
    assert a[..11] == "postgres://" && a[0] == 'p';
    assert b[..13] == "postgresql://" && b[0] == 'p';
    assert !StartsWith(a, "file:") && !StartsWith(b, "file:");
  }

  /** A suffix starting with a dot cannot reach back into a prefix that has no dot. */
  lemma EndsWithAfterScheme(pre: string, rest: string, suf: string)
    requires suf != "" && suf[0] == '.' && '.' !in pre
    ensures EndsWith(pre + rest, suf) ==> EndsWith(rest, suf)
  {
    var u := pre + rest;
    var k := |u| - |suf|;
    if |rest| < |suf| && k >= 0 {
      assert u[k] == pre[k];
      assert u[k] != suf[0];
    } else if |rest| >= |suf| {
      assert u[k..] == rest[|rest| - |suf|..];
    }
  }

  /** Any URL mentioning `localhost` and not naming an SQLite file is taken as PostgreSQL. */
  lemma LocalhostIsPostgres(p: string, q: string)
    requires !SqliteMarked(p + "localhost" + q)
    ensures DetectDatabaseType(p + "localhost" + q) == Postgresql
  {
    var u := p + "localhost" + q;
    assert u[|p|..|p| + 9] == "localhost";
    assert OccursAt(u, "localhost", |p|);
  }

  /** With neither argument nor environment value the database is taken to be SQLite. */
  lemma NoUrlIsSqlite()
    ensures DetectDatabaseType(ResolveUrl(None, None)) == Sqlite
    ensures DetectDatabaseType(ResolveUrl(Some(""), None)) == Sqlite
  {
    assert !Contains("", "localhost");
    assert !Contains("", "127.0.0.1");
  }

  /** The module-level memo: `null` until the first lookup. */
  datatype DbTypeCache = DbTypeCache(cached: Option<DatabaseType>)

  /** `getDatabaseType()`, returning the type and the cache after the call. */
  function GetDatabaseType(cache: DbTypeCache, envUrl: Option<string>): (r: (DatabaseType, DbTypeCache))
    ensures r.1.cached == Some(r.0)
    ensures cache.cached.Some? ==> r.1 == cache
  {
    match cache.cached
    case Some(t) => (t, cache)
    case None =>
      var t := DetectDatabaseType(ResolveUrl(None, envUrl));
      (t, DbTypeCache(Some(t)))
  }

  function ResetDatabaseTypeCache(): (r: DbTypeCache)
    ensures r.cached.None?
  {
    DbTypeCache(None)
  }

  /**
   * The first lookup fixes the type: a later lookup returns the same value
   * whatever the environment says by then, and leaves the cache alone.
   */
  lemma CacheIsSticky(cache: DbTypeCache, env1: Option<string>, env2: Option<string>)
    ensures var (t1, c1) := GetDatabaseType(cache, env1);
            GetDatabaseType(c1, env2) == (t1, c1)
  {
  }

  /** A fresh or reset cache reports what the environment's URL says. */
  lemma ResetRereadsEnvironment(env: Option<string>)
    ensures GetDatabaseType(ResetDatabaseTypeCache(), env).0 == DetectDatabaseType(ResolveUrl(None, env))
  {
  }

  /* ---------------------------------------------------------------------- */
  /* Strategy records                                                        */
  /* ---------------------------------------------------------------------- */

  /** A JSON value of a result row, with JavaScript truthiness. */
  datatype JsonValue = JNull | JBool(b: bool) | JNum(n: int) | JStr(s: string) | JComposite(text: string)
  {
    predicate Truthy() {
      match this
      case JNull => false
      case JBool(b) => b
      case JNum(n) => n != 0
      case JStr(s) => s != ""
      case JComposite(_) => true
    }
  }

  /** A PostgreSQL `EXPLAIN` row: its `QUERY PLAN` column, absent or present. */
  datatype PgExplainRow = PgExplainRow(queryPlan: Option<JsonValue>)

  /** An `EXPLAIN QUERY PLAN` row of SQLite; older versions name the columns differently. */
  datatype SqliteExplainRow = SqliteExplainRow(
    id: Option<int>, parent: Option<int>, detail: Option<string>,
    selectid: Option<int>, order: Option<int>, from: Option<int>)

  datatype ExplainStep = ExplainStep(id: Option<int>, parent: Option<int>, detail: string)

  datatype PlanFormat = Json | Text

  datatype Plan =
    | Undefined
    | WholeRow(row: PgExplainRow)
    | QueryPlan(value: JsonValue)
    | Steps(steps: seq<ExplainStep>)

  datatype ExplainResult = ExplainResult(plan: Plan, format: PlanFormat)

  const EXPLAIN_WORD: string := "EXPLAIN "
  const PG_EXPLAIN_PREFIX: string := EXPLAIN_WORD + "(FORMAT JSON, ANALYZE FALSE, COSTS TRUE) "
  const SQLITE_EXPLAIN_PREFIX: string := EXPLAIN_WORD + "QUERY PLAN "
  const PG_TIMEOUT_PREFIX: string := "SET statement_timeout = "

  /** The two strategy records `PostgresAdapter` and `SqliteAdapter`. */
  datatype QueryAdapter = PostgresAdapter | SqliteAdapter
  {
    function Type(): DatabaseType {
      if PostgresAdapter? then Postgresql else Sqlite
    }

    predicate SupportsStatementTimeout() {
      PostgresAdapter?
    }

    /** The statement that sets a timeout, when the dialect has one. */
    function StatementTimeoutQuery(timeoutMs: int): (r: Option<string>)
      ensures r.Some? <==> SupportsStatementTimeout()
      ensures r.Some? ==> StartsWith(r.value, PG_TIMEOUT_PREFIX)
    {
      if PostgresAdapter? then Some(PG_TIMEOUT_PREFIX + IntToString(timeoutMs)) else None
    }

    /** Both dialects report RETURNING support (SQLite conservatively so, per its comment). */
    predicate SupportsReturningClause() {
      true
    }

    function ExplainPrefix(): (r: string)
      ensures StartsWith(r, "EXPLAIN ")
    {
      assert PG_EXPLAIN_PREFIX[..8] == EXPLAIN_WORD;
      assert SQLITE_EXPLAIN_PREFIX[..8] == EXPLAIN_WORD;
      if PostgresAdapter? then PG_EXPLAIN_PREFIX else SQLITE_EXPLAIN_PREFIX
    }

    function ExplainQuery(sql: string): (r: string)
      ensures |r| == |ExplainPrefix()| + |sql|
      ensures StartsWith(r, "EXPLAIN ") && EndsWith(r, sql)
      ensures r[|ExplainPrefix()|..] == sql
    {
      ExplainPrefix() + sql
    }

    function Format(): PlanFormat {
      if PostgresAdapter? then Json else Text
    }
  }

  /** `getQueryAdapter(dbType?)`: an explicit type wins and leaves the memo untouched. */
  function GetQueryAdapter(dbType: Option<DatabaseType>, cache: DbTypeCache, envUrl: Option<string>)
    : (r: (QueryAdapter, DbTypeCache))
    ensures dbType.Some? ==> r.0.Type() == dbType.value && r.1 == cache
    ensures dbType.None? ==> (r.0.Type(), r.1) == GetDatabaseType(cache, envUrl)
  {
    var (t, c) := if dbType.Some? then (dbType.value, cache) else GetDatabaseType(cache, envUrl);
    (if t == Postgresql then PostgresAdapter else SqliteAdapter, c)
  }

  /** Each dialect has exactly one adapter, and the adapter reports the dialect it serves. */
  lemma AdapterForType(a: QueryAdapter, cache: DbTypeCache, env: Option<string>)
    ensures GetQueryAdapter(Some(a.Type()), cache, env).0 == a
  {
  }

  /** The timeout statement carries the timeout: parsing its tail gives the number back. */
  lemma TimeoutQueryRoundTrip(ms: int)
    ensures var q := PostgresAdapter.StatementTimeoutQuery(ms).value;
            ParseInt(q[|PG_TIMEOUT_PREFIX|..]) == Int(ms)
  {
    var q := PostgresAdapter.StatementTimeoutQuery(ms).value;
    assert q[|PG_TIMEOUT_PREFIX|..] == IntToString(ms);
    ParseIntRoundTrip(ms);
  }

  /** `parseExplainResult` of the PostgreSQL adapter. */
  function PgParseExplain(rows: seq<PgExplainRow>): (r: ExplainResult)
    ensures r.format == Json
    ensures rows == [] <==> r.plan == Undefined
  {
    if rows == [] then ExplainResult(Undefined, Json)
    else
      var row := rows[0];
      if row.queryPlan.Some? && row.queryPlan.value.Truthy() then ExplainResult(QueryPlan(row.queryPlan.value), Json)
      else ExplainResult(WholeRow(row), Json)
  }

  /** The plan of the first row is reported whenever it is truthy; other rows are ignored. */
  lemma PgExplainUsesFirstPlan(v: JsonValue, more: seq<PgExplainRow>)
    ensures PgParseExplain([PgExplainRow(Some(v))] + more).plan
         == if v.Truthy() then QueryPlan(v) else WholeRow(PgExplainRow(Some(v)))
  {
  }

  /** `row.detail ?? row.from?.toString() ?? ''`. */
  function StepDetail(row: SqliteExplainRow): string {
    if row.detail.Some? then row.detail.value
    else if row.from.Some? then IntToString(row.from.value)
    else ""
  }

  function StepOf(row: SqliteExplainRow): ExplainStep {
    ExplainStep(
      if row.id.Some? then row.id else row.selectid,
      if row.parent.Some? then row.parent else row.order,
      StepDetail(row))
  }

  /** `parseExplainResult` of the SQLite adapter: one step per row, in row order. */
  function SqliteParseExplain(rows: seq<SqliteExplainRow>): (r: ExplainResult)
    ensures r.format == Text && r.plan.Steps? && |r.plan.steps| == |rows|
    ensures forall i | 0 <= i < |rows| :: r.plan.steps[i] == StepOf(rows[i])
  {
    ExplainResult(Steps(seq(|rows|, i requires 0 <= i < |rows| => StepOf(rows[i]))), Text)
  }

  /** The row a current SQLite writes for a step. */
  function ModernRow(s: ExplainStep): SqliteExplainRow {
    SqliteExplainRow(s.id, s.parent, Some(s.detail), None, None, None)
  }

  /** The row an older SQLite writes: `selectid`, `order` and a numeric `from`. */
  function LegacyRow(selectid: int, order: int, from: int): SqliteExplainRow {
    SqliteExplainRow(None, None, None, Some(selectid), Some(order), Some(from))
  }

  /** Steps written by a current SQLite are recovered exactly. */
  lemma SqliteExplainRoundTrip(steps: seq<ExplainStep>)
    ensures SqliteParseExplain(seq(|steps|, i requires 0 <= i < |steps| => ModernRow(steps[i]))).plan == Steps(steps)
  {
  }

  /** Older rows are read through their legacy column names, the number rendered as text. */
  lemma SqliteExplainLegacy(selectid: int, order: int, from: int)
    ensures StepOf(LegacyRow(selectid, order, from)) == ExplainStep(Some(selectid), Some(order), IntToString(from))
    ensures ParseInt(StepOf(LegacyRow(selectid, order, from)).detail) == Int(from)
  {
    ParseIntRoundTrip(from);
  }

  /** The explain result's format follows the adapter. */
  function ParseExplain(a: QueryAdapter, pgRows: seq<PgExplainRow>, sqliteRows: seq<SqliteExplainRow>)
    : (r: ExplainResult)
    ensures r.format == a.Format()
  {
    if a.PostgresAdapter? then PgParseExplain(pgRows) else SqliteParseExplain(sqliteRows)
  }

  /* ---------------------------------------------------------------------- */
  /* Row normalisers                                                         */
  /* ---------------------------------------------------------------------- */

  datatype TableInfo = TableInfo(name: string)
  datatype ColumnInfo = ColumnInfo(name: string, typ: string, isNullable: bool, defaultValue: Option<string>, isPrimaryKey: bool)
  datatype ForeignKeyInfo = ForeignKeyInfo(column: string, referencedTable: string, referencedColumn: string)
  datatype IndexInfo = IndexInfo(name: string, columns: seq<string>, isUnique: bool, isPrimary: bool)
  datatype ConstraintInfo = ConstraintInfo(name: string, typ: string)

  /** A row of the PostgreSQL column query; `is_nullable` is the catalogue's `'YES'`/`'NO'`. */
  datatype PgColumnRow = PgColumnRow(name: string, typ: string, isNullable: string, defaultValue: Option<string>, isPrimaryKey: bool)
  /** A row of `PRAGMA table_info`. */
  datatype SqliteColumnRow = SqliteColumnRow(cid: int, name: string, typ: string, notnull: int, dfltValue: Option<string>, pk: int)
  datatype PgForeignKeyRow = PgForeignKeyRow(column: string, referencedTable: string, referencedColumn: string)
  /** A row of `PRAGMA foreign_key_list`. */
  datatype SqliteForeignKeyRow = SqliteForeignKeyRow(id: int, sequence: int, table: string, from: string, to: string)
  /** A row of the PostgreSQL index query: one per indexed column. */
  datatype PgIndexRow = PgIndexRow(indexName: string, columnName: string, isUnique: bool, isPrimary: bool)
  /** A row of `PRAGMA index_list`. */
  datatype SqliteIndexRow = SqliteIndexRow(sequence: int, name: string, unique: int, origin: string, partial: int)
  /** A row of `PRAGMA index_info`. */
  datatype SqliteIndexColumnRow = SqliteIndexColumnRow(seqno: int, cid: int, name: string)
  datatype ConstraintRow = ConstraintRow(name: string, typ: string)
  datatype TableRow = TableRow(name: string)

  function PgColumn(row: PgColumnRow): ColumnInfo {
    ColumnInfo(row.name, row.typ, row.isNullable == "YES", row.defaultValue, row.isPrimaryKey)
  }

  function SqliteColumn(row: SqliteColumnRow): ColumnInfo {
    ColumnInfo(row.name, row.typ, row.notnull == 0, row.dfltValue, row.pk > 0)
  }

  function TransformTables(rows: seq<TableRow>): (r: seq<TableInfo>)
    ensures |r| == |rows| && forall i | 0 <= i < |rows| :: r[i].name == rows[i].name
  {
    seq(|rows|, i requires 0 <= i < |rows| => TableInfo(rows[i].name))
  }

  function PgTransformColumns(rows: seq<PgColumnRow>): (r: seq<ColumnInfo>)
    ensures |r| == |rows|
    ensures forall i | 0 <= i < |rows| :: r[i].name == rows[i].name && (r[i].isNullable <==> rows[i].isNullable == "YES")
  {
    seq(|rows|, i requires 0 <= i < |rows| => PgColumn(rows[i]))
  }

  function SqliteTransformColumns(rows: seq<SqliteColumnRow>): (r: seq<ColumnInfo>)
    ensures |r| == |rows|
    ensures forall i | 0 <= i < |rows| ::
      r[i].name == rows[i].name && (r[i].isNullable <==> rows[i].notnull == 0) && (r[i].isPrimaryKey <==> rows[i].pk > 0)
  {
    seq(|rows|, i requires 0 <= i < |rows| => SqliteColumn(rows[i]))
  }

  /** What the PostgreSQL catalogue reports for a column. */
  function PgColumnRowOf(c: ColumnInfo): PgColumnRow {
    PgColumnRow(c.name, c.typ, if c.isNullable then "YES" else "NO", c.defaultValue, c.isPrimaryKey)
  }

  /** What `PRAGMA table_info` reports for a column at position `cid`. */
  function SqliteColumnRowOf(c: ColumnInfo, cid: int): SqliteColumnRow {
    SqliteColumnRow(cid, c.name, c.typ, if c.isNullable then 0 else 1, c.defaultValue, if c.isPrimaryKey then 1 else 0)
  }

  /**
   * Both dialects normalise to the same description: the columns the
   * catalogue of either database reports for a table come back unchanged.
   */
  lemma ColumnTransformsAgree(cols: seq<ColumnInfo>)
    ensures PgTransformColumns(seq(|cols|, i requires 0 <= i < |cols| => PgColumnRowOf(cols[i]))) == cols
    ensures SqliteTransformColumns(seq(|cols|, i requires 0 <= i < |cols| => SqliteColumnRowOf(cols[i], i))) == cols
  {
  }

  function PgTransformForeignKeys(rows: seq<PgForeignKeyRow>): (r: seq<ForeignKeyInfo>)
    ensures |r| == |rows|
    ensures forall i | 0 <= i < |rows| :: r[i].column == rows[i].column && r[i].referencedTable == rows[i].referencedTable
  {
    seq(|rows|, i requires 0 <= i < |rows| =>
      ForeignKeyInfo(rows[i].column, rows[i].referencedTable, rows[i].referencedColumn))
  }

  /** SQLite reports the referencing column as `from`, the target as `table` and `to`. */
  function SqliteTransformForeignKeys(rows: seq<SqliteForeignKeyRow>): (r: seq<ForeignKeyInfo>)
    ensures |r| == |rows|
    ensures forall i | 0 <= i < |rows| :: r[i].column == rows[i].from && r[i].referencedTable == rows[i].table
  {
    seq(|rows|, i requires 0 <= i < |rows| => ForeignKeyInfo(rows[i].from, rows[i].table, rows[i].to))
  }

  /** A foreign key reported by either catalogue normalises to the same record. */
  lemma ForeignKeyTransformsAgree(fk: ForeignKeyInfo, id: int, sequence: int)
    ensures PgTransformForeignKeys([PgForeignKeyRow(fk.column, fk.referencedTable, fk.referencedColumn)])
         == SqliteTransformForeignKeys([SqliteForeignKeyRow(id, sequence, fk.referencedTable, fk.column, fk.referencedColumn)])
         == [fk]
  {
  }

  /** SQLite lists indexes without their columns; a separate query fills them in. */
  function SqliteTransformIndexes(rows: seq<SqliteIndexRow>): (r: seq<IndexInfo>)
    ensures |r| == |rows|
    ensures forall i | 0 <= i < |rows| ::
      r[i].name == rows[i].name && r[i].columns == [] && (r[i].isUnique <==> rows[i].unique == 1) && (r[i].isPrimary <==> rows[i].origin == "pk")
  {
    seq(|rows|, i requires 0 <= i < |rows| =>
      IndexInfo(rows[i].name, [], rows[i].unique == 1, rows[i].origin == "pk"))
  }

  /** `transformSqliteIndexColumns`: the column names, in row order. */
  function SqliteIndexColumns(rows: seq<SqliteIndexColumnRow>): (r: seq<string>)
    ensures |r| == |rows| && forall i | 0 <= i < |rows| :: r[i] == rows[i].name
  {
    seq(|rows|, i requires 0 <= i < |rows| => rows[i].name)
  }

  function PgTransformConstraints(rows: seq<ConstraintRow>): (r: seq<ConstraintInfo>)
    ensures |r| == |rows| && forall i | 0 <= i < |rows| :: r[i] == ConstraintInfo(rows[i].name, rows[i].typ)
  {
    seq(|rows|, i requires 0 <= i < |rows| => ConstraintInfo(rows[i].name, rows[i].typ))
  }

  /** SQLite has no named constraints: the list is always empty. */
  function SqliteTransformConstraints(rows: seq<ConstraintRow>): (r: seq<ConstraintInfo>)
    ensures r == []
  {
    []
  }

  /* ---------------------------------------------------------------------- */
  /* Grouping PostgreSQL index rows                                          */
  /* ---------------------------------------------------------------------- */

  /** Position of the record named `name`, if any (`acc.find` / `indexMap.get`). */
  function FindIndex(acc: seq<IndexInfo>, name: string): (r: Option<nat>)
    ensures r.Some? ==> r.value < |acc| && acc[r.value].name == name
    ensures r.None? ==> forall j | 0 <= j < |acc| :: acc[j].name != name
  {
    if acc == [] then None
    else if acc[|acc| - 1].name == name then
      var e := FindIndex(acc[..|acc| - 1], name);
      if e.Some? then e else Some(|acc| - 1)
    else FindIndex(acc[..|acc| - 1], name)
  }

  /** One step of the reduction: extend the record of the row's index or open a new one. */
  function AddIndexRow(acc: seq<IndexInfo>, row: PgIndexRow): seq<IndexInfo> {
    match FindIndex(acc, row.indexName)
    case Some(i) => acc[i := acc[i].(columns := acc[i].columns + [row.columnName])]
    case None => acc + [IndexInfo(row.indexName, [row.columnName], row.isUnique, row.isPrimary)]
  }

  /** `transformIndexesResult` of the PostgreSQL adapter, and the grouping of `get_table_details`. */
  function GroupIndexRows(rows: seq<PgIndexRow>): seq<IndexInfo>
    decreases |rows|
  {
    if rows == [] then [] else AddIndexRow(GroupIndexRows(rows[..|rows| - 1]), rows[|rows| - 1])
  }

  function IndexNames(rows: seq<PgIndexRow>): (r: seq<string>)
    ensures |r| == |rows| && forall i | 0 <= i < |rows| :: r[i] == rows[i].indexName
  {
    seq(|rows|, i requires 0 <= i < |rows| => rows[i].indexName)
  }

  /** The distinct elements of `s`, each at the position of its first occurrence. */
  function FirstAppearances(s: seq<string>): (r: seq<string>)
    ensures forall x :: x in r <==> x in s
    ensures forall i, j | 0 <= i < j < |r| :: r[i] != r[j]
    decreases |s|
  {
    if s == [] then []
    else
      var d := FirstAppearances(s[..|s| - 1]);
      assert forall x :: x in s <==> x in s[..|s| - 1] || x == s[|s| - 1];
      if s[|s| - 1] in d then d else d + [s[|s| - 1]]
  }

  /** Position of the first occurrence of `x` in `s`. */
  function FirstIndexOf(s: seq<string>, x: string): (i: nat)
    requires x in s
    ensures i < |s| && s[i] == x && forall j | 0 <= j < i :: s[j] != x
  {
    if s[0] == x then 0 else 1 + FirstIndexOf(s[1..], x)
  }

  /** Earlier first appearance comes first in `FirstAppearances`. */
  lemma {:induction false} FirstAppearancesOrdered(s: seq<string>, i: nat, j: nat)
    requires i < j < |FirstAppearances(s)|
    ensures FirstIndexOf(s, FirstAppearances(s)[i]) < FirstIndexOf(s, FirstAppearances(s)[j])
    decreases |s|
  {
    var d := FirstAppearances(s[..|s| - 1]);
    var f := FirstAppearances(s);
    var p := s[..|s| - 1];
    assert s == p + [s[|s| - 1]];
    assert f[i] in p;
    FirstIndexPrefix(s, f[i]);
    if j < |d| {
      assert f[i] == d[i] && f[j] == d[j];
      FirstIndexPrefix(s, f[j]);
      FirstAppearancesOrdered(p, i, j);
    } else {
      assert f[j] == s[|s| - 1] && f[j] !in d;
      assert f[j] !in p;
    }
  }

  /** A first occurrence inside a prefix is the first occurrence in the whole. */
  lemma FirstIndexPrefix(s: seq<string>, x: string)
    requires |s| > 0 && x in s[..|s| - 1]
    ensures FirstIndexOf(s, x) == FirstIndexOf(s[..|s| - 1], x)
  {
    var k := FirstIndexOf(s[..|s| - 1], x);
    var m := FirstIndexOf(s, x);
    assert s[k] == x;
    assert m <= k;
    assert s[..|s| - 1][m] == x;
  }

  /** The columns the rows list for index `name`, in row order. */
  function ColumnsOf(rows: seq<PgIndexRow>, name: string): (r: seq<string>)
    ensures |r| <= |rows|
    decreases |rows|
  {
    if rows == [] then []
    else
      var last := rows[|rows| - 1];
      ColumnsOf(rows[..|rows| - 1], name) + (if last.indexName == name then [last.columnName] else [])
  }

  /** The first row of index `name`. */
  function FirstRowOf(rows: seq<PgIndexRow>, name: string): (r: PgIndexRow)
    requires name in IndexNames(rows)
    ensures r == rows[FirstIndexOf(IndexNames(rows), name)]
  {
    rows[FirstIndexOf(IndexNames(rows), name)]
  }

  /** The grouping described directly: one record per index, in order of first appearance. */
  ghost predicate GroupedAsSpecified(rows: seq<PgIndexRow>, g: seq<IndexInfo>) {
    var names := FirstAppearances(IndexNames(rows));
    |g| == |names|
    && forall i | 0 <= i < |g| ::
      g[i].name == names[i]
      && g[i].columns == ColumnsOf(rows, names[i])
      && g[i].isUnique == FirstRowOf(rows, names[i]).isUnique
      && g[i].isPrimary == FirstRowOf(rows, names[i]).isPrimary
  }

  lemma IndexNamesPrefix(rows: seq<PgIndexRow>)
    requires rows != []
    ensures IndexNames(rows[..|rows| - 1]) == IndexNames(rows)[..|rows| - 1]
    ensures IndexNames(rows) == IndexNames(rows[..|rows| - 1]) + [rows[|rows| - 1].indexName]
  {
  }

  /** The grouping step keeps every earlier row's first row. */
  lemma FirstRowPrefix(rows: seq<PgIndexRow>, name: string)
    requires rows != [] && name in IndexNames(rows[..|rows| - 1])
    ensures name in IndexNames(rows)
    ensures FirstRowOf(rows, name) == FirstRowOf(rows[..|rows| - 1], name)
  {
    IndexNamesPrefix(rows);
    FirstIndexPrefix(IndexNames(rows), name);
  }

  lemma FirstRowLast(rows: seq<PgIndexRow>)
    requires rows != [] && rows[|rows| - 1].indexName !in IndexNames(rows[..|rows| - 1])
    ensures FirstRowOf(rows, rows[|rows| - 1].indexName) == rows[|rows| - 1]
  {
    IndexNamesPrefix(rows);
    var ns := IndexNames(rows);
    var x := rows[|rows| - 1].indexName;
    assert ns[|rows| - 1] == x;
    assert ns[..|rows| - 1] == IndexNames(rows[..|rows| - 1]);
  }

  /**
   * Grouping yields one record per distinct index name in order of first
   * appearance; each record holds that index's columns in row order and the
   * flags of its first row.
   */
  lemma {:induction false} GroupIndexRowsCorrect(rows: seq<PgIndexRow>)
    ensures GroupedAsSpecified(rows, GroupIndexRows(rows))
    decreases |rows|
  {
    if rows != [] {
      var p := rows[..|rows| - 1];
      var row := rows[|rows| - 1];
      GroupIndexRowsCorrect(p);
      var acc := GroupIndexRows(p);
      match FindIndex(acc, row.indexName)
      case Some(k) => GroupStepExtends(rows, acc, k);
      case None => GroupStepOpens(rows, acc);
    }
  }

  /** A name already seen keeps its first row; its column list grows only by the new row. */
  lemma GroupStepCarries(rows: seq<PgIndexRow>, name: string)
    requires rows != [] && name in IndexNames(rows[..|rows| - 1])
    ensures FirstRowOf(rows, name) == FirstRowOf(rows[..|rows| - 1], name)
    ensures ColumnsOf(rows, name) == ColumnsOf(rows[..|rows| - 1], name)
      + (if rows[|rows| - 1].indexName == name then [rows[|rows| - 1].columnName] else [])
  {
    FirstRowPrefix(rows, name);
  }

  /** The step for a row whose index already has a record. */
  lemma GroupStepExtends(rows: seq<PgIndexRow>, acc: seq<IndexInfo>, k: nat)
    requires rows != [] && GroupedAsSpecified(rows[..|rows| - 1], acc)
    requires k < |acc| && acc[k].name == rows[|rows| - 1].indexName
    ensures GroupedAsSpecified(rows, acc[k := acc[k].(columns := acc[k].columns + [rows[|rows| - 1].columnName])])
  {
    var p := rows[..|rows| - 1];
    var row := rows[|rows| - 1];
    var pnames := FirstAppearances(IndexNames(p));
    var g := acc[k := acc[k].(columns := acc[k].columns + [row.columnName])];
    SeenNameKeepsNames(rows, k, acc);
    assert |g| == |acc| == |pnames|;
    forall i | 0 <= i < |g|
      ensures g[i].name == pnames[i]
      ensures g[i].columns == ColumnsOf(rows, pnames[i])
      ensures g[i].isUnique == FirstRowOf(rows, pnames[i]).isUnique
      ensures g[i].isPrimary == FirstRowOf(rows, pnames[i]).isPrimary
    {
      GroupStepExtendsAt(rows, acc, k, i);
    }
  }

  /** A row of an index already seen adds no name to the order of first appearance. */
  lemma SeenNameKeepsNames(rows: seq<PgIndexRow>, k: nat, acc: seq<IndexInfo>)
    requires rows != [] && GroupedAsSpecified(rows[..|rows| - 1], acc)
    requires k < |acc| && acc[k].name == rows[|rows| - 1].indexName
    ensures FirstAppearances(IndexNames(rows)) == FirstAppearances(IndexNames(rows[..|rows| - 1]))
  {
    var p := rows[..|rows| - 1];
    var pnames := FirstAppearances(IndexNames(p));
    IndexNamesPrefix(rows);
    assert IndexNames(rows)[..|rows| - 1] == IndexNames(p);
    assert rows[|rows| - 1].indexName in pnames by { assert acc[k].name == pnames[k]; }
  }

  /** One record after the step: the extended one gains the row's column, the others are carried over. */
  lemma GroupStepExtendsAt(rows: seq<PgIndexRow>, acc: seq<IndexInfo>, k: nat, i: nat)
    requires rows != [] && GroupedAsSpecified(rows[..|rows| - 1], acc)
    requires k < |acc| && acc[k].name == rows[|rows| - 1].indexName && i < |acc|
    ensures var pnames := FirstAppearances(IndexNames(rows[..|rows| - 1]));
      var g := acc[k := acc[k].(columns := acc[k].columns + [rows[|rows| - 1].columnName])];
      && pnames[i] in IndexNames(rows)
      && g[i].name == pnames[i]
      && g[i].columns == ColumnsOf(rows, pnames[i])
      && g[i].isUnique == FirstRowOf(rows, pnames[i]).isUnique
      && g[i].isPrimary == FirstRowOf(rows, pnames[i]).isPrimary
  {
    var p := rows[..|rows| - 1];
    var pnames := FirstAppearances(IndexNames(p));
    assert acc[i].name == pnames[i];
    assert pnames[i] in IndexNames(p);
    GroupStepCarries(rows, pnames[i]);
    if i == k {
      assert pnames[i] == rows[|rows| - 1].indexName;
    } else {
      assert pnames[i] != pnames[k];
    }
  }

  /** The step for a row that opens a new index record. */
  lemma GroupStepOpens(rows: seq<PgIndexRow>, acc: seq<IndexInfo>)
    requires rows != [] && GroupedAsSpecified(rows[..|rows| - 1], acc)
    requires forall j | 0 <= j < |acc| :: acc[j].name != rows[|rows| - 1].indexName
    ensures GroupedAsSpecified(rows, acc + [IndexInfo(rows[|rows| - 1].indexName, [rows[|rows| - 1].columnName],
                                                      rows[|rows| - 1].isUnique, rows[|rows| - 1].isPrimary)])
  {
    var p := rows[..|rows| - 1];
    var row := rows[|rows| - 1];
    var pnames := FirstAppearances(IndexNames(p));
    var g := acc + [IndexInfo(row.indexName, [row.columnName], row.isUnique, row.isPrimary)];
    IndexNamesPrefix(rows);
    assert IndexNames(rows)[..|rows| - 1] == IndexNames(p);
    forall j | 0 <= j < |pnames|
      ensures pnames[j] != row.indexName
    {
      assert acc[j].name == pnames[j];
    }
    assert row.indexName !in IndexNames(p);
    var names := pnames + [row.indexName];
    assert FirstAppearances(IndexNames(rows)) == names;
    forall i | 0 <= i < |acc|
      ensures g[i].name == names[i]
      ensures g[i].columns == ColumnsOf(rows, names[i])
      ensures g[i].isUnique == FirstRowOf(rows, names[i]).isUnique
      ensures g[i].isPrimary == FirstRowOf(rows, names[i]).isPrimary
    {
      assert pnames[i] in IndexNames(p);
      GroupStepCarries(rows, pnames[i]);
    }
    FirstRowLast(rows);
    ColumnsOfAbsent(p, row.indexName);
    assert ColumnsOf(rows, row.indexName) == [row.columnName];
  }

  lemma ColumnsOfAbsent(rows: seq<PgIndexRow>, name: string)
    requires name !in IndexNames(rows)
    ensures ColumnsOf(rows, name) == []
  {
    if rows != [] {
      IndexNamesPrefix(rows);
      ColumnsOfAbsent(rows[..|rows| - 1], name);
    }
  }

  function TotalColumns(g: seq<IndexInfo>): nat {
    if g == [] then 0 else TotalColumns(g[..|g| - 1]) + |g[|g| - 1].columns|
  }

  lemma TotalColumnsAppend(g: seq<IndexInfo>, x: IndexInfo)
    ensures TotalColumns(g + [x]) == TotalColumns(g) + |x.columns|
  {
    assert (g + [x])[..|g|] == g;
  }

  lemma {:induction false} TotalColumnsUpdate(g: seq<IndexInfo>, i: nat, x: IndexInfo)
    requires i < |g|
    ensures TotalColumns(g[i := x]) + |g[i].columns| == TotalColumns(g) + |x.columns|
    decreases |g|
  {
    var n := |g| - 1;
    if i < n {
      assert g[i := x][..n] == g[..n][i := x];
      TotalColumnsUpdate(g[..n], i, x);
    } else {
      assert g[i := x][..n] == g[..n];
    }
  }

  /** Every row contributes exactly one column: no row is lost or counted twice. */
  lemma {:induction false} GroupIndexRowsKeepsEveryRow(rows: seq<PgIndexRow>)
    ensures TotalColumns(GroupIndexRows(rows)) == |rows|
    decreases |rows|
  {
    if rows != [] {
      var p := rows[..|rows| - 1];
      var row := rows[|rows| - 1];
      var acc := GroupIndexRows(p);
      GroupIndexRowsKeepsEveryRow(p);
      match FindIndex(acc, row.indexName)
      case Some(k) =>
        TotalColumnsUpdate(acc, k, acc[k].(columns := acc[k].columns + [row.columnName]));
      case None =>
        TotalColumnsAppend(acc, IndexInfo(row.indexName, [row.columnName], row.isUnique, row.isPrimary));
    }
  }

  /** The records come in order of each index's first row. */
  lemma GroupIndexRowsOrder(rows: seq<PgIndexRow>, i: nat, j: nat)
    requires i < j < |GroupIndexRows(rows)|
    ensures GroupIndexRows(rows)[i].name in IndexNames(rows)
    ensures GroupIndexRows(rows)[j].name in IndexNames(rows)
    ensures FirstIndexOf(IndexNames(rows), GroupIndexRows(rows)[i].name)
          < FirstIndexOf(IndexNames(rows), GroupIndexRows(rows)[j].name)
  {
    GroupIndexRowsCorrect(rows);
    FirstAppearancesOrdered(IndexNames(rows), i, j);
  }
}
