/**
 * The decision logic of the MCP database tools. Every tool first passes the
 * access gates; the SQL tools then gate on the statement classifier before
 * the database is touched. The database is an oracle of query results and
 * each run records the calls it made, the log records it wrote and the reply.
 * Replies keep the structured value the tool serialises to JSON.
 */
module Handlers {
  import opened Text
  import opened McpConstants
  import opened SqlParser
  import opened SqlText
  import opened Security
  import opened Logging
  import DbAdapter

  /* ---------------------------------------------------------------------- */
  /* Access                                                                  */
  /* ---------------------------------------------------------------------- */

  datatype Access =
    | Granted
    | Refused(kind: ErrorKind, ip: Option<string>, reason: string)

  /** `validateAccess()`: environment, then feature flag, then loopback. */
  function ValidateAccess(env: Env, h: Headers): (r: Access)
    ensures r.Granted? <==> IsDevelopment(env) && IsMcpEnabled(env) && IsLocalhost(h)
    ensures r.Refused? ==> r.kind in {NotDevelopment, NotEnabled, NotLocalhost}
    ensures r.Refused? && r.kind == NotDevelopment <==> !IsDevelopment(env)
    ensures r.Refused? && r.kind == NotEnabled <==> IsDevelopment(env) && !IsMcpEnabled(env)
    ensures r.Refused? ==> (r.ip.Some? <==> r.kind == NotLocalhost)
    ensures r.Refused? && r.ip.Some? ==> r.ip.value == GetRequestIp(h) && r.ip.value != ""
  {
    if !IsDevelopment(env) then Refused(NotDevelopment, None, "Not in development environment")
    else if !IsMcpEnabled(env) then Refused(NotEnabled, None, "MCP_DEV_ONLY_DB_ACCESS is not enabled")
    else if !IsLocalhost(h) then Refused(NotLocalhost, Some(GetRequestIp(h)), "Non-localhost access attempt")
    else Granted
  }

  /* ---------------------------------------------------------------------- */
  /* The database oracle                                                     */
  /* ---------------------------------------------------------------------- */

  /** What a failed call throws: an `Error` with a message, or anything else. */
  datatype Failure = ErrorThrown(message: string) | OtherThrown
  {
    /** `error instanceof Error ? error.message : 'Unknown error'`. */
    function Text(): string {
      if ErrorThrown? then message else "Unknown error"
    }
  }

  datatype Outcome<T> = Ok(value: T) | Threw(failure: Failure)

  /**
   * A result row, opaque but for one fact: whether one of its cells is a
   * `bigint` (what the driver returns for COUNT and 8-byte integer columns).
   */
  datatype Row = Row(json: string, holdsBigInt: bool)

  /** `JSON.stringify` succeeds on the rows: none of them holds a `bigint`. */
  predicate Serialisable(rows: seq<Row>) {
    forall i | 0 <= i < |rows| :: !rows[i].holdsBigInt
  }

  /** The message of the `TypeError` that `JSON.stringify` throws on a `bigint`. */
  const BIGINT_UNSERIALISABLE: string := "Do not know how to serialize a BigInt"

  /** What `$queryRawUnsafe` resolves to; anything but an array counts as no rows. */
  datatype QueryResult = RowsResult(rows: seq<Row>) | NotArray
  {
    function Rows(): seq<Row> {
      if RowsResult? then rows else []
    }
  }

  datatype ColumnRow = ColumnRow(name: string, typ: string, isNullable: string, default: Option<string>)
  datatype DetailedColumnRow = DetailedColumnRow(
    name: string, typ: string, maxLength: Option<int>, precision: Option<int>, scale: Option<int>,
    isNullable: string, default: Option<string>)

  /** The calls a tool makes, in the order it makes them. */
  datatype DbCall =
    | RawQuery(sql: string, params: seq<Param>)
    | RawExecute(sql: string, params: seq<Param>)
    | ListTables
    | ListColumns(table: string)
    | ListPrimaryKeys(table: string)
    | ListForeignKeys(table: string)
    | CountRows(table: string)
    | ListDetailedColumns(table: string)
    | ListIndexes(table: string)
    | ListConstraints(table: string)

  /**
   * The database's answer to each call. The catalogue queries are the
   * fixed texts of the source; only their table argument varies.
   */
  datatype Db = Db(
    queryRaw: (string, seq<Param>) -> Outcome<QueryResult>,
    executeRaw: (string, seq<Param>) -> Outcome<int>,
    tables: Outcome<seq<string>>,
    columns: string -> Outcome<seq<ColumnRow>>,
    primaryKeys: string -> Outcome<seq<string>>,
    foreignKeys: string -> Outcome<seq<DbAdapter.PgForeignKeyRow>>,
    rowCount: string -> Outcome<seq<int>>,
    detailedColumns: string -> Outcome<seq<DetailedColumnRow>>,
    indexes: string -> Outcome<seq<DbAdapter.PgIndexRow>>,
    constraints: string -> Outcome<seq<DbAdapter.ConstraintRow>>)

  /** Everything a tool invocation sees: environment, headers, database, and the clock's readings. */
  datatype Request = Request(env: Env, headers: Headers, db: Db, timestamp: string, durationMs: int)

  /* ---------------------------------------------------------------------- */
  /* Replies and runs                                                        */
  /* ---------------------------------------------------------------------- */

  datatype ColumnSummary = ColumnSummary(name: string, typ: string, isNullable: bool, default: Option<string>)
  datatype TableSummary = TableSummary(
    table: string, rowCount: int, columns: seq<ColumnSummary>, primaryKey: seq<string>,
    foreignKeys: seq<DbAdapter.ForeignKeyInfo>)
  datatype ColumnDetail = ColumnDetail(
    name: string, typ: string, maxLength: Option<int>, precision: Option<int>, scale: Option<int>,
    isNullable: bool, default: Option<string>)
  datatype TableDetails = TableDetails(
    table: string, rowCount: int, columns: seq<ColumnDetail>, indexes: seq<DbAdapter.IndexInfo>,
    constraints: seq<DbAdapter.ConstraintInfo>, sampleRows: seq<Row>)

  datatype Body =
    | Overview(tables: seq<TableSummary>)
    | Details(details: TableDetails)
    | SelectRows(rows: seq<Row>)
    | MutationDone(rowCount: int, returning: Option<seq<Row>>)
    | Plan(first: Option<Row>)
    | Validation(result: ParseResult)

  datatype Reply = TextReply(text: string) | JsonReply(body: Body)

  datatype LogRecord =
    | OperationLog(entry: LogEntry)
    | SqlLogRecord(log: SqlLog)
    | DeniedLog(line: string)
    | ReasonLog(reason: string)

  /** One tool invocation: its reply, the database calls made and the log records written. */
  datatype Run = Run(reply: Reply, calls: seq<DbCall>, logs: seq<LogRecord>)

  const HEALTH_TEXT: string := "MCP server is healthy and ready to accept commands"
  const EXPLAIN_REJECTED: string := "Error: Only SELECT statements can be explained"

  function Entry(req: Request, tool: string, statementClass: Option<string>, withDuration: bool,
                 rowCount: Option<int>, error: Option<string>, reason: Option<string>): LogEntry
  {
    LogEntry(req.timestamp, tool, statementClass, if withDuration then Some(req.durationMs) else None,
             rowCount, error, reason, None)
  }

  /** The reply and log of a refused request. */
  function DeniedRun(a: Access): (r: Run)
    requires a.Refused?
    ensures r.reply == TextReply(a.kind.Message()) && r.calls == []
  {
    Run(TextReply(a.kind.Message()), [], [DeniedLog(AccessDeniedLine(a.reason, a.ip))])
  }

  /** The catch block shared by the tools: log the error, reply with the prefixed message. */
  function FailedRun(req: Request, tool: string, statementClass: Option<string>, reason: Option<string>,
                     prefix: string, f: Failure, calls: seq<DbCall>, logs: seq<LogRecord>): (r: Run)
    ensures r.reply == TextReply(prefix + f.Text()) && r.calls == calls
  {
    Run(TextReply(prefix + f.Text()), calls,
        logs + [OperationLog(Entry(req, tool, statementClass, true, None, Some(f.Text()), reason))])
  }

  /** Parameters are passed on only when there are some. */
  function ParamsOf(params: Option<seq<Param>>): seq<Param> {
    if params.Some? then params.value else []
  }

  /** `SET statement_timeout = <ms>`, with the configured timeout. */
  function TimeoutStatement(env: Env): string {
    DbAdapter.PG_TIMEOUT_PREFIX + NumberToString(GetConfigInt(env, "MCP_STMT_TIMEOUT_MS", Int(STATEMENT_TIMEOUT_MS)))
  }

  /* ---------------------------------------------------------------------- */
  /* health                                                                  */
  /* ---------------------------------------------------------------------- */

  function Health(req: Request): (r: Run)
    ensures r.calls == []
    ensures ValidateAccess(req.env, req.headers).Granted? <==> r.reply == TextReply(HEALTH_TEXT)
  {
    var access := ValidateAccess(req.env, req.headers);
    if access.Refused? then
      ErrorMessageNotHealth(access.kind);
      DeniedRun(access)
    else Run(TextReply(HEALTH_TEXT), [], [OperationLog(Entry(req, "health", None, true, None, None, None))])
  }

  /** No refusal message reads like the health reply; their lengths already differ. */
  lemma ErrorMessageNotHealth(k: ErrorKind)
    ensures k.Message() != HEALTH_TEXT
  {
    assert |HEALTH_TEXT| == 50;
    match k
    case NotDevelopment => assert |k.Message()| == 55;
    case NotEnabled => assert |k.Message()| == 102;
    case NotLocalhost => assert |k.Message()| == 47;
    case NotSelect => assert |k.Message()| == 34;
    case NotDml => assert |k.Message()| == 53;
    case ForbiddenDdl => assert |k.Message()| == 53;
    case InvalidSql => assert |k.Message()| == 29;
  }

  /* ---------------------------------------------------------------------- */
  /* execute_sql_select                                                      */
  /* ---------------------------------------------------------------------- */

  /** `rowLimit || getConfigInt('MCP_DEFAULT_LIMIT', 200)`: a given limit is used as it is. */
  function ChooseLimit(env: Env, rowLimit: Option<int>): (r: Number)
    ensures rowLimit.Some? && rowLimit.value != 0 ==> r == Int(rowLimit.value)
    ensures rowLimit.None? && env.validated.None? && !Present(env.Raw("MCP_DEFAULT_LIMIT")) ==> r == Int(DEFAULT_LIMIT)
  {
    if rowLimit.Some? && rowLimit.value != 0 then Int(rowLimit.value)
    else GetConfigInt(env, "MCP_DEFAULT_LIMIT", Int(DEFAULT_LIMIT))
  }

  function ExecuteSelect(req: Request, sql: string, params: Option<seq<Param>>, rowLimit: Option<int>): (r: Run)
    ensures ValidateAccess(req.env, req.headers).Granted? && !IsSelectOnly(sql) ==>
              r.calls == [] && r.reply == TextReply(NotSelect.Message())
    ensures r.calls != [] ==> r.calls[0] == RawExecute(TimeoutStatement(req.env), [])
    ensures |r.calls| <= 2
    ensures r.reply.JsonReply? ==> r.reply.body.SelectRows? && Serialisable(r.reply.body.rows)
  {
    var access := ValidateAccess(req.env, req.headers);
    if access.Refused? then DeniedRun(access)
    else if !IsSelectOnly(sql) then
      Run(TextReply(NotSelect.Message()), [],
          [OperationLog(Entry(req, "execute_sql_select", None, false, None, Some("Not a SELECT statement"), None))])
    else SelectAfterGate(req, sql, params, rowLimit)
  }

  /**
   * A statement past the SELECT gate: apply the limit, log it, set the
   * timeout, then run it and reply with its rows.
   */
  function SelectAfterGate(req: Request, sql: string, params: Option<seq<Param>>, rowLimit: Option<int>): (r: Run)
    ensures r.calls != [] && r.calls[0] == RawExecute(TimeoutStatement(req.env), [])
    ensures |r.calls| <= 2
    ensures r.reply.JsonReply? ==> r.reply.body.SelectRows? && Serialisable(r.reply.body.rows)
  {
      var limited := AddLimitToSelect(sql, ChooseLimit(req.env, rowLimit));
      var logs := [SqlLogRecord(LogSql(limited, params))];
      var timeout := RawExecute(TimeoutStatement(req.env), []);
      match req.db.executeRaw(timeout.sql, [])
      case Threw(f) => FailedRun(req, "execute_sql_select", Some("SELECT"), None, "Error executing SELECT: ", f, [timeout], logs)
      case Ok(_) =>
        var run := RawQuery(limited, ParamsOf(params));
        match req.db.queryRaw(run.sql, run.params)
        case Threw(f) => FailedRun(req, "execute_sql_select", Some("SELECT"), None, "Error executing SELECT: ", f, [timeout, run], logs)
        case Ok(result) =>
          var rows := result.Rows();
          var done := logs + [OperationLog(Entry(req, "execute_sql_select", Some("SELECT"), true, Some(|rows|), None, None))];
          if Serialisable(rows) then Run(JsonReply(SelectRows(rows)), [timeout, run], done)
          else FailedRun(req, "execute_sql_select", Some("SELECT"), None, "Error executing SELECT: ",
                         ErrorThrown(BIGINT_UNSERIALISABLE), [timeout, run], done)
  }

  /**
   * An accepted SELECT sets the timeout and then runs the statement with the
   * chosen limit applied; the rows come back as the database returned them,
   * unless one holds a `bigint`: then the success is logged, serialising the
   * reply throws, and the error reply follows with a second log record.
   */
  lemma SelectRunsLimitedQuery(req: Request, sql: string, params: Option<seq<Param>>, rowLimit: Option<int>)
    requires ValidateAccess(req.env, req.headers).Granted? && IsSelectOnly(sql)
    requires req.db.executeRaw(TimeoutStatement(req.env), []).Ok?
    ensures var limited := AddLimitToSelect(sql, ChooseLimit(req.env, rowLimit));
            var q := req.db.queryRaw(limited, ParamsOf(params));
            var r := ExecuteSelect(req, sql, params, rowLimit);
            r.calls == [RawExecute(TimeoutStatement(req.env), []), RawQuery(limited, ParamsOf(params))]
            && (q.Ok? && Serialisable(q.value.Rows()) ==>
                  r.reply == JsonReply(SelectRows(q.value.Rows())) && |r.logs| == 2
                  && r.logs[1].OperationLog? && r.logs[1].entry.rowCount == Some(|q.value.Rows()|))
            && (q.Ok? && !Serialisable(q.value.Rows()) ==>
                  r.reply == TextReply("Error executing SELECT: " + BIGINT_UNSERIALISABLE) && |r.logs| == 3
                  && r.logs[1].OperationLog? && r.logs[1].entry.rowCount == Some(|q.value.Rows()|)
                  && r.logs[2].OperationLog? && r.logs[2].entry.error == Some(BIGINT_UNSERIALISABLE))
            && (q.Threw? ==>
                  r.reply == TextReply("Error executing SELECT: " + q.failure.Text()) && |r.logs| == 2)
  {
    SelectAfterGateRuns(req, sql, params, rowLimit);
  }

  lemma SelectAfterGateRuns(req: Request, sql: string, params: Option<seq<Param>>, rowLimit: Option<int>)
    requires req.db.executeRaw(TimeoutStatement(req.env), []).Ok?
    ensures var limited := AddLimitToSelect(sql, ChooseLimit(req.env, rowLimit));
            var q := req.db.queryRaw(limited, ParamsOf(params));
            var r := SelectAfterGate(req, sql, params, rowLimit);
            r.calls == [RawExecute(TimeoutStatement(req.env), []), RawQuery(limited, ParamsOf(params))]
            && (q.Ok? && Serialisable(q.value.Rows()) ==>
                  r.reply == JsonReply(SelectRows(q.value.Rows())) && |r.logs| == 2
                  && r.logs[1].OperationLog? && r.logs[1].entry.rowCount == Some(|q.value.Rows()|))
            && (q.Ok? && !Serialisable(q.value.Rows()) ==>
                  r.reply == TextReply("Error executing SELECT: " + BIGINT_UNSERIALISABLE) && |r.logs| == 3
                  && r.logs[1].OperationLog? && r.logs[1].entry.rowCount == Some(|q.value.Rows()|)
                  && r.logs[2].OperationLog? && r.logs[2].entry.error == Some(BIGINT_UNSERIALISABLE))
            && (q.Threw? ==>
                  r.reply == TextReply("Error executing SELECT: " + q.failure.Text()) && |r.logs| == 2)
  {
    var limited := AddLimitToSelect(sql, ChooseLimit(req.env, rowLimit));
    var q := req.db.queryRaw(limited, ParamsOf(params));
    match q
    case Threw(f) => SelectQueryThrew(req, sql, params, rowLimit, limited, f);
    case Ok(result) => SelectQueryAnswered(req, sql, params, rowLimit, limited, result.Rows());
  }

  lemma SelectQueryThrew(req: Request, sql: string, params: Option<seq<Param>>, rowLimit: Option<int>,
                         limited: string, f: Failure)
    requires req.db.executeRaw(TimeoutStatement(req.env), []).Ok?
    requires limited == AddLimitToSelect(sql, ChooseLimit(req.env, rowLimit))
    requires req.db.queryRaw(limited, ParamsOf(params)) == Threw(f)
    ensures var r := SelectAfterGate(req, sql, params, rowLimit);
            r.calls == [RawExecute(TimeoutStatement(req.env), []), RawQuery(limited, ParamsOf(params))]
            && r.reply == TextReply("Error executing SELECT: " + f.Text()) && |r.logs| == 2
  {
  }

  lemma SelectQueryAnswered(req: Request, sql: string, params: Option<seq<Param>>, rowLimit: Option<int>,
                            limited: string, rows: seq<Row>)
    requires req.db.executeRaw(TimeoutStatement(req.env), []).Ok?
    requires limited == AddLimitToSelect(sql, ChooseLimit(req.env, rowLimit))
    requires req.db.queryRaw(limited, ParamsOf(params)).Ok? && req.db.queryRaw(limited, ParamsOf(params)).value.Rows() == rows
    ensures var r := SelectAfterGate(req, sql, params, rowLimit);
            r.calls == [RawExecute(TimeoutStatement(req.env), []), RawQuery(limited, ParamsOf(params))]
            && r.logs[1].OperationLog? && r.logs[1].entry.rowCount == Some(|rows|)
            && (Serialisable(rows) ==> r.reply == JsonReply(SelectRows(rows)) && |r.logs| == 2)
            && (!Serialisable(rows) ==>
                  r.reply == TextReply("Error executing SELECT: " + BIGINT_UNSERIALISABLE) && |r.logs| == 3
                  && r.logs[2].OperationLog? && r.logs[2].entry.error == Some(BIGINT_UNSERIALISABLE))
  {
  }


  /** Without a row limit in the request or the environment, a SELECT gets `LIMIT 200`. */
  lemma SelectDefaultLimit(req: Request, sql: string)
    requires req.env.validated.None? && !Present(req.env.Raw("MCP_DEFAULT_LIMIT"))
    ensures ChooseLimit(req.env, None) == Int(DEFAULT_LIMIT)
    ensures !Contains(Upper(sql), "LIMIT") ==> EndsWith(AddLimitToSelect(sql, ChooseLimit(req.env, None)), " LIMIT 200")
  {
    if !Contains(Upper(sql), "LIMIT") {
      DefaultLimitAppended(sql);
    }
  }

  lemma DefaultLimitAppended(sql: string)
    requires !Contains(Upper(sql), "LIMIT")
    ensures EndsWith(AddLimitToSelect(sql, Int(DEFAULT_LIMIT)), " LIMIT 200")
  {
    var x := StripSemicolon(sql);
    assert NumberToString(Int(200)) == "200";
    var r := x + " LIMIT " + "200";
    assert r[|r| - 10..] == " LIMIT 200";
  }

  /* ---------------------------------------------------------------------- */
  /* execute_sql_mutation                                                    */
  /* ---------------------------------------------------------------------- */

  /** `sql.toUpperCase().includes('RETURNING')`. */
  predicate HasReturning(sql: string) {
    Contains(Upper(sql), "RETURNING")
  }

  function ExecuteMutation(req: Request, sql: string, params: Option<seq<Param>>, reason: string): (r: Run)
    ensures ValidateAccess(req.env, req.headers).Granted? && !IsDmlOnly(sql) ==>
              r.calls == [] && r.reply == TextReply(NotDml.Message())
    ensures r.calls != [] ==> r.calls[0] == RawExecute(TimeoutStatement(req.env), [])
    ensures r.reply.JsonReply? ==> r.reply.body.MutationDone?
    ensures r.reply.JsonReply? ==>
              (r.reply.body.returning.Some? <==> HasReturning(sql))
              && (r.reply.body.returning.Some? ==> r.reply.body.rowCount == |r.reply.body.returning.value|)
    ensures r.reply.JsonReply? && r.reply.body.returning.Some? ==> Serialisable(r.reply.body.returning.value)
    ensures ValidateAccess(req.env, req.headers).Granted? && IsDmlOnly(sql) ==>
              3 <= |r.logs| <= 4 && r.logs[..2] == [SqlLogRecord(LogSql(sql, params)), ReasonLog(reason)]
  {
    var access := ValidateAccess(req.env, req.headers);
    if access.Refused? then DeniedRun(access)
    else if !IsDmlOnly(sql) then
      Run(TextReply(NotDml.Message()), [],
          [OperationLog(Entry(req, "execute_sql_mutation", None, false, None, Some("Not a valid DML statement"), None))])
    else MutationAfterGate(req, sql, params, reason)
  }

  /** A statement past the DML gate: log it, set the timeout, then run it. */
  function MutationAfterGate(req: Request, sql: string, params: Option<seq<Param>>, reason: string): (r: Run)
    ensures r.calls != [] && r.calls[0] == RawExecute(TimeoutStatement(req.env), [])
    ensures r.reply.JsonReply? ==> r.reply.body.MutationDone?
    ensures r.reply.JsonReply? ==>
              (r.reply.body.returning.Some? <==> HasReturning(sql))
              && (r.reply.body.returning.Some? ==> r.reply.body.rowCount == |r.reply.body.returning.value|)
    ensures r.reply.JsonReply? && r.reply.body.returning.Some? ==> Serialisable(r.reply.body.returning.value)
    ensures 3 <= |r.logs| <= 4 && r.logs[..2] == [SqlLogRecord(LogSql(sql, params)), ReasonLog(reason)]
  {
    var logs := [SqlLogRecord(LogSql(sql, params)), ReasonLog(reason)];
    var timeout := RawExecute(TimeoutStatement(req.env), []);
    match req.db.executeRaw(timeout.sql, [])
    case Threw(f) => MutationFailed(req, reason, f, [timeout], logs)
    case Ok(_) =>
      var r := MutationStatement(req, sql, params, reason, [timeout], logs);
      assert r.calls[..1] == [timeout];
      r
  }

  const MUTATION_FAILED: string := "Error executing mutation: "

  function MutationFailed(req: Request, reason: string, f: Failure, calls: seq<DbCall>, logs: seq<LogRecord>): (r: Run)
    ensures r.reply == TextReply(MUTATION_FAILED + f.Text()) && r.calls == calls
    ensures |r.logs| == |logs| + 1 && r.logs[..|logs|] == logs
  {
    FailedRun(req, "execute_sql_mutation", None, Some(reason), MUTATION_FAILED, f, calls, logs)
  }

  /**
   * The statement itself: as a query when it mentions RETURNING, as a command
   * otherwise. Returned rows holding a `bigint` make the reply's serialisation
   * throw after the statement ran and the success was logged.
   */
  function MutationStatement(req: Request, sql: string, params: Option<seq<Param>>, reason: string,
                             calls: seq<DbCall>, logs: seq<LogRecord>): (r: Run)
    ensures |r.calls| == |calls| + 1 && r.calls[..|calls|] == calls
    ensures HasReturning(sql) ==> r.calls[|calls|] == RawQuery(sql, ParamsOf(params))
    ensures !HasReturning(sql) ==> r.calls[|calls|] == RawExecute(sql, ParamsOf(params))
    ensures |logs| + 1 <= |r.logs| <= |logs| + 2 && r.logs[..|logs|] == logs
    ensures |r.logs| == |logs| + 2 ==> HasReturning(sql) && r.reply == TextReply(MUTATION_FAILED + BIGINT_UNSERIALISABLE)
    ensures r.reply.JsonReply? ==> r.reply.body.MutationDone?
    ensures r.reply.JsonReply? ==>
              (r.reply.body.returning.Some? <==> HasReturning(sql))
              && (r.reply.body.returning.Some? ==> r.reply.body.rowCount == |r.reply.body.returning.value|
                                                   && Serialisable(r.reply.body.returning.value))
  {
    if HasReturning(sql) then
      var call := RawQuery(sql, ParamsOf(params));
      match req.db.queryRaw(call.sql, call.params)
      case Threw(f) => MutationFailed(req, reason, f, calls + [call], logs)
      case Ok(result) =>
        var rows := result.Rows();
        var done := MutationSucceeded(req, sql, reason, |rows|, Some(rows), calls + [call], logs);
        if Serialisable(rows) then done
        else MutationFailed(req, reason, ErrorThrown(BIGINT_UNSERIALISABLE), done.calls, done.logs)
    else
      var call := RawExecute(sql, ParamsOf(params));
      match req.db.executeRaw(call.sql, call.params)
      case Threw(f) => MutationFailed(req, reason, f, calls + [call], logs)
      case Ok(n) => MutationSucceeded(req, sql, reason, n, None, calls + [call], logs)
  }

  /** The success reply, logged with the statement's class, the row count and the reason. */
  function MutationSucceeded(req: Request, sql: string, reason: string, rowCount: int, returning: Option<seq<Row>>,
                        calls: seq<DbCall>, logs: seq<LogRecord>): (r: Run)
    ensures r.reply == JsonReply(MutationDone(rowCount, returning)) && r.calls == calls
    ensures |r.logs| == |logs| + 1 && r.logs[..|logs|] == logs
    ensures r.logs[|logs|].OperationLog? && r.logs[|logs|].entry.rowCount == Some(rowCount)
              && r.logs[|logs|].entry.reason == Some(reason)
  {
    var classification := Classify(sql);
    var cls := if classification.statementType.Some? then Some(classification.statementType.value.Name()) else None;
    Run(JsonReply(MutationDone(rowCount, returning)), calls,
        logs + [OperationLog(Entry(req, "execute_sql_mutation", cls, true, Some(rowCount), None, Some(reason)))])
  }

  /**
   * A statement mentioning RETURNING is run as a query and its rows are
   * returned; any other is run as a command and only its count is returned.
   * Returned rows holding a `bigint` give the error reply, although the
   * statement has run.
   */
  lemma MutationRoute(req: Request, sql: string, params: Option<seq<Param>>, reason: string)
    requires ValidateAccess(req.env, req.headers).Granted? && IsDmlOnly(sql)
    requires req.db.executeRaw(TimeoutStatement(req.env), []).Ok?
    ensures var r := ExecuteMutation(req, sql, params, reason);
            var q := req.db.queryRaw(sql, ParamsOf(params));
            var e := req.db.executeRaw(sql, ParamsOf(params));
            |r.calls| == 2
            && (HasReturning(sql) ==> r.calls[1] == RawQuery(sql, ParamsOf(params)))
            && (!HasReturning(sql) ==> r.calls[1] == RawExecute(sql, ParamsOf(params)))
            && (HasReturning(sql) && q.Ok? && Serialisable(q.value.Rows()) ==>
                  r.reply == JsonReply(MutationDone(|q.value.Rows()|, Some(q.value.Rows()))) && |r.logs| == 3)
            && (HasReturning(sql) && q.Ok? && !Serialisable(q.value.Rows()) ==>
                  r.reply == TextReply(MUTATION_FAILED + BIGINT_UNSERIALISABLE) && |r.logs| == 4
                  && r.logs[2].OperationLog? && r.logs[2].entry.rowCount == Some(|q.value.Rows()|))
            && (HasReturning(sql) && q.Threw? ==> r.reply == TextReply(MUTATION_FAILED + q.failure.Text()))
            && (!HasReturning(sql) && e.Ok? ==> r.reply == JsonReply(MutationDone(e.value, None)) && |r.logs| == 3)
            && (!HasReturning(sql) && e.Threw? ==> r.reply == TextReply(MUTATION_FAILED + e.failure.Text()))
  {
  }

  /* ---------------------------------------------------------------------- */
  /* explain_query                                                           */
  /* ---------------------------------------------------------------------- */

  function ExplainQuery(req: Request, sql: string): (r: Run)
    ensures ValidateAccess(req.env, req.headers).Granted? && !IsSelectOnly(sql) ==>
              r.calls == [] && r.reply == TextReply(EXPLAIN_REJECTED)
    ensures ValidateAccess(req.env, req.headers).Granted? && IsSelectOnly(sql) ==>
              r.calls == [RawQuery(DbAdapter.QueryAdapter.PostgresAdapter.ExplainQuery(sql), [])]
    ensures r.reply.JsonReply? ==> r.reply.body.Plan? && (r.reply.body.first.Some? ==> !r.reply.body.first.value.holdsBigInt)
  {
    var access := ValidateAccess(req.env, req.headers);
    if access.Refused? then DeniedRun(access)
    else if !IsSelectOnly(sql) then
      Run(TextReply(EXPLAIN_REJECTED), [],
          [OperationLog(Entry(req, "explain_query", None, false, None, Some("Not a SELECT statement"), None))])
    else ExplainAfterGate(req, sql)
  }

  /**
   * A statement past the SELECT gate: log it, run it under EXPLAIN and reply
   * with the first row, unless that row holds a `bigint`.
   */
  function ExplainAfterGate(req: Request, sql: string): (r: Run)
    ensures r.calls == [RawQuery(DbAdapter.QueryAdapter.PostgresAdapter.ExplainQuery(sql), [])]
    ensures r.reply.JsonReply? ==> r.reply.body.Plan? && (r.reply.body.first.Some? ==> !r.reply.body.first.value.holdsBigInt)
  {
    var explainSql := DbAdapter.PG_EXPLAIN_PREFIX + sql;
    var logs := [SqlLogRecord(LogSql(RedactSensitiveData(explainSql), None))];
    var call := RawQuery(explainSql, []);
    match req.db.queryRaw(explainSql, [])
    case Threw(f) => FailedRun(req, "explain_query", None, None, "Error explaining query: ", f, [call], logs)
    case Ok(result) =>
      var rows := result.Rows();
      var done := logs + [OperationLog(Entry(req, "explain_query", Some("EXPLAIN"), true, None, None, None))];
      if rows == [] then Run(JsonReply(Plan(None)), [call], done)
      else if !rows[0].holdsBigInt then Run(JsonReply(Plan(Some(rows[0]))), [call], done)
      else FailedRun(req, "explain_query", None, None, "Error explaining query: ", ErrorThrown(BIGINT_UNSERIALISABLE), [call], done)
  }


  /* ---------------------------------------------------------------------- */
  /* validate_sql                                                            */
  /* ---------------------------------------------------------------------- */

  function ValidateSql(req: Request, sql: string): (r: Run)
    ensures r.calls == []
    ensures ValidateAccess(req.env, req.headers).Granted? ==> r.reply == JsonReply(Validation(Classify(sql)))
  {
    var access := ValidateAccess(req.env, req.headers);
    if access.Refused? then DeniedRun(access)
    else
      var result := ValidateSqlSyntax(sql);
      var cls := if result.statementType.Some? then Some(result.statementType.value.Name()) else None;
      var err := if result.error.Some? then Some(result.error.value.Message()) else None;
      Run(JsonReply(Validation(result)), [],
          [OperationLog(Entry(req, "validate_sql", cls, true, None, err, None))])
  }

  /* ---------------------------------------------------------------------- */
  /* get_table_details                                                       */
  /* ---------------------------------------------------------------------- */

  /** `Number(rowCount[0]?.count || 0)`. */
  function FirstCount(counts: seq<int>): int {
    if counts != [] then counts[0] else 0
  }

  function ColumnDetailOf(c: DetailedColumnRow): ColumnDetail {
    ColumnDetail(c.name, c.typ, c.maxLength, c.precision, c.scale, c.isNullable == "YES", c.default)
  }

  /** `sampleRows.slice(0, 5)`, or nothing when the result is not an array. */
  function SampleOf(result: QueryResult): (r: seq<Row>)
    ensures |r| <= 5
    ensures |r| <= |result.Rows()| && r == result.Rows()[..|r|]
    ensures |result.Rows()| <= 5 ==> r == result.Rows()
  {
    var rows := result.Rows();
    if |rows| <= 5 then rows else rows[..5]
  }

  function SampleQuery(table: string): string {
    "SELECT * FROM \"" + table + "\" LIMIT 5"
  }

  function TableNotFound(table: string): string {
    "Table '" + table + "' not found"
  }

  const DETAILS_FAILED: string := "Error getting table details: "

  function GetTableDetails(req: Request, table: string): (r: Run)
    ensures r.reply.JsonReply? ==> r.reply.body.Details? && |r.reply.body.details.sampleRows| <= 5
    ensures r.reply.JsonReply? ==> Serialisable(r.reply.body.details.sampleRows)
    ensures r.reply.JsonReply? ==>
              req.db.indexes(table).Ok? && r.reply.body.details.indexes == DbAdapter.GroupIndexRows(req.db.indexes(table).value)
    ensures r.calls != [] ==> r.calls[0] == ListDetailedColumns(table)
  {
    var access := ValidateAccess(req.env, req.headers);
    if access.Refused? then DeniedRun(access)
    else
      var c1 := ListDetailedColumns(table);
      match req.db.detailedColumns(table)
      case Threw(f) => DetailsFailed(req, f, [c1])
      case Ok(columns) =>
        if columns == [] then DetailsFailed(req, ErrorThrown(TableNotFound(table)), [c1])
        else
          var c2 := ListIndexes(table);
          match req.db.indexes(table)
          case Threw(f) => DetailsFailed(req, f, [c1, c2])
          case Ok(indexRows) => DetailsFromIndexes(req, table, columns, indexRows, [c1, c2])
  }

  function DetailsFailed(req: Request, f: Failure, calls: seq<DbCall>): (r: Run)
    ensures r.reply == TextReply(DETAILS_FAILED + f.Text()) && r.calls == calls
  {
    FailedRun(req, "get_table_details", None, None, DETAILS_FAILED, f, calls, [])
  }

  /**
   * The remaining queries: constraints, row count and the sample rows. A
   * sample row holding a `bigint` makes the reply's serialisation throw after
   * the success was logged.
   */
  function DetailsFromIndexes(req: Request, table: string, columns: seq<DetailedColumnRow>,
                              indexRows: seq<DbAdapter.PgIndexRow>, calls: seq<DbCall>): (r: Run)
    ensures r.reply.JsonReply? ==> r.reply.body.Details? && |r.reply.body.details.sampleRows| <= 5
    ensures r.reply.JsonReply? ==> Serialisable(r.reply.body.details.sampleRows)
    ensures r.reply.JsonReply? ==> r.reply.body.details.indexes == DbAdapter.GroupIndexRows(indexRows)
    ensures |r.calls| > |calls| && r.calls[..|calls|] == calls
  {
    var c3 := ListConstraints(table);
    match req.db.constraints(table)
    case Threw(f) => DetailsFailed(req, f, calls + [c3])
    case Ok(constraintRows) =>
      var c4 := CountRows(table);
      match req.db.rowCount(table)
      case Threw(f) => DetailsFailed(req, f, calls + [c3, c4])
      case Ok(counts) =>
        var c5 := RawQuery(SampleQuery(table), []);
        match req.db.queryRaw(c5.sql, [])
        case Threw(f) => DetailsFailed(req, f, calls + [c3, c4, c5])
        case Ok(sample) =>
          var details := TableDetails(
            table, FirstCount(counts),
            seq(|columns|, i requires 0 <= i < |columns| => ColumnDetailOf(columns[i])),
            DbAdapter.GroupIndexRows(indexRows),
            DbAdapter.PgTransformConstraints(constraintRows),
            SampleOf(sample));
          var done := [OperationLog(Entry(req, "get_table_details", None, true, None, None, None))];
          if Serialisable(details.sampleRows) then Run(JsonReply(Details(details)), calls + [c3, c4, c5], done)
          else FailedRun(req, "get_table_details", None, None, DETAILS_FAILED, ErrorThrown(BIGINT_UNSERIALISABLE),
                         calls + [c3, c4, c5], done)
  }

  /** A table without columns is reported as missing, after a single catalogue call. */
  lemma MissingTableReported(req: Request, table: string)
    requires ValidateAccess(req.env, req.headers).Granted?
    requires req.db.detailedColumns(table) == Ok([])
    ensures GetTableDetails(req, table).reply == TextReply(DETAILS_FAILED + TableNotFound(table))
    ensures GetTableDetails(req, table).calls == [ListDetailedColumns(table)]
  {
  }

  /** The details list each index once, in order of first appearance, with its columns in row order. */
  lemma DetailsGroupIndexes(req: Request, table: string)
    requires GetTableDetails(req, table).reply.JsonReply?
    ensures req.db.indexes(table).Ok?
    ensures DbAdapter.GroupedAsSpecified(req.db.indexes(table).value,
                                         GetTableDetails(req, table).reply.body.details.indexes)
    ensures DbAdapter.TotalColumns(GetTableDetails(req, table).reply.body.details.indexes)
         == |req.db.indexes(table).value|
  {
    DbAdapter.GroupIndexRowsCorrect(req.db.indexes(table).value);
    DbAdapter.GroupIndexRowsKeepsEveryRow(req.db.indexes(table).value);
  }

  /* ---------------------------------------------------------------------- */
  /* get_schema_overview                                                     */
  /* ---------------------------------------------------------------------- */

  const OVERVIEW_FAILED: string := "Error getting schema overview: "

  function ColumnSummaryOf(c: ColumnRow): ColumnSummary {
    ColumnSummary(c.name, c.typ, c.isNullable == "YES", c.default)
  }

  /** The four catalogue calls for one table. */
  function SummaryCalls(t: string): seq<DbCall> {
    [ListColumns(t), ListPrimaryKeys(t), ListForeignKeys(t), CountRows(t)]
  }

  /** One table's summary, or the failure that stopped it and the calls made so far. */
  function Summarise(db: Db, t: string): (r: (Outcome<TableSummary>, seq<DbCall>))
    ensures r.0.Ok? ==> r.1 == SummaryCalls(t) && r.0.value.table == t
    ensures r.0.Threw? ==> 1 <= |r.1| <= 4 && r.1 == SummaryCalls(t)[..|r.1|]
  {
    var calls := SummaryCalls(t);
    match db.columns(t)
    case Threw(f) => (Threw(f), calls[..1])
    case Ok(columns) =>
      match db.primaryKeys(t)
      case Threw(f) => (Threw(f), calls[..2])
      case Ok(pks) =>
        match db.foreignKeys(t)
        case Threw(f) => (Threw(f), calls[..3])
        case Ok(fks) =>
          match db.rowCount(t)
          case Threw(f) => (Threw(f), calls)
          case Ok(counts) =>
            (Ok(TableSummary(t, FirstCount(counts),
                             seq(|columns|, i requires 0 <= i < |columns| => ColumnSummaryOf(columns[i])),
                             pks, DbAdapter.PgTransformForeignKeys(fks))), calls)
  }

  /** The loop over the tables, stopping at the first failure. */
  function SummariseAll(db: Db, tables: seq<string>): (r: (Outcome<seq<TableSummary>>, seq<DbCall>))
    ensures r.0.Ok? ==> |r.0.value| == |tables| && forall i | 0 <= i < |tables| :: r.0.value[i].table == tables[i]
    ensures r.0.Ok? ==> |r.1| == 4 * |tables|
    decreases |tables|
  {
    if tables == [] then (Ok([]), [])
    else
      var (first, calls) := Summarise(db, tables[0]);
      match first
      case Threw(f) => (Threw(f), calls)
      case Ok(s) =>
        var (rest, more) := SummariseAll(db, tables[1..]);
        match rest
        case Threw(f) => (Threw(f), calls + more)
        case Ok(ss) => (Ok([s] + ss), calls + more)
  }

  function GetSchemaOverview(req: Request): (r: Run)
    ensures r.calls != [] ==> r.calls[0] == ListTables
  {
    var access := ValidateAccess(req.env, req.headers);
    if access.Refused? then DeniedRun(access)
    else
      match req.db.tables
      case Threw(f) => FailedRun(req, "get_schema_overview", None, None, OVERVIEW_FAILED, f, [ListTables], [])
      case Ok(tables) =>
        var (result, calls) := SummariseAll(req.db, tables);
        match result
        case Threw(f) => FailedRun(req, "get_schema_overview", None, None, OVERVIEW_FAILED, f, [ListTables] + calls, [])
        case Ok(schema) =>
          Run(JsonReply(Overview(schema)), [ListTables] + calls,
              [OperationLog(Entry(req, "get_schema_overview", None, true, Some(|schema|), None, None))])
  }

  /** On success the overview has one summary per table, in catalogue order, and logs that count. */
  lemma OverviewCoversTables(req: Request)
    requires ValidateAccess(req.env, req.headers).Granted? && req.db.tables.Ok?
    requires GetSchemaOverview(req).reply.JsonReply?
    ensures var r := GetSchemaOverview(req);
            var tables := req.db.tables.value;
            |r.reply.body.tables| == |tables|
            && (forall i | 0 <= i < |tables| :: r.reply.body.tables[i].table == tables[i])
            && |r.calls| == 1 + 4 * |tables|
            && r.logs == [OperationLog(Entry(req, "get_schema_overview", None, true, Some(|tables|), None, None))]
  {
  }

  /* ---------------------------------------------------------------------- */
  /* Dispatch                                                                */
  /* ---------------------------------------------------------------------- */

  datatype Tool =
    | HealthTool
    | SchemaOverviewTool
    | TableDetailsTool(table: string)
    | SelectTool(sql: string, params: Option<seq<Param>>, rowLimit: Option<int>)
    | MutationTool(sql: string, params: Option<seq<Param>>, reason: string)
    | ExplainTool(sql: string)
    | ValidateTool(sql: string)

  function Invoke(req: Request, tool: Tool): Run {
    match tool
    case HealthTool => Health(req)
    case SchemaOverviewTool => GetSchemaOverview(req)
    case TableDetailsTool(t) => GetTableDetails(req, t)
    case SelectTool(sql, ps, limit) => ExecuteSelect(req, sql, ps, limit)
    case MutationTool(sql, ps, reason) => ExecuteMutation(req, sql, ps, reason)
    case ExplainTool(sql) => ExplainQuery(req, sql)
    case ValidateTool(sql) => ValidateSql(req, sql)
  }

  /**
   * A refused request gets the failing gate's message from every tool, and
   * no tool touches the database for it.
   */
  lemma RefusedRequestsTouchNothing(req: Request, tool: Tool)
    requires ValidateAccess(req.env, req.headers).Refused?
    ensures Invoke(req, tool).calls == []
    ensures Invoke(req, tool).reply == TextReply(ValidateAccess(req.env, req.headers).kind.Message())
    ensures Invoke(req, tool).logs == [DeniedLog(AccessDeniedLine(ValidateAccess(req.env, req.headers).reason,
                                                                  ValidateAccess(req.env, req.headers).ip))]
  {
  }

  /** Only the statement tools can reach the database with caller-supplied SQL, and only after the classifier agrees. */
  lemma CallerSqlOnlyAfterClassifier(req: Request, tool: Tool, i: nat)
    requires i < |Invoke(req, tool).calls|
    requires Invoke(req, tool).calls[i].RawQuery? || Invoke(req, tool).calls[i].RawExecute?
    ensures ValidateAccess(req.env, req.headers).Granted?
    ensures tool.SelectTool? ==> IsSelectOnly(tool.sql)
    ensures tool.MutationTool? ==> IsDmlOnly(tool.sql)
    ensures tool.ExplainTool? ==> IsSelectOnly(tool.sql)
    ensures tool.HealthTool? || tool.SchemaOverviewTool? || tool.ValidateTool? ==> false
  {
    if ValidateAccess(req.env, req.headers).Refused? {
      RefusedRequestsTouchNothing(req, tool);
    }
    if tool.SchemaOverviewTool? {
      SchemaOverviewCatalogueOnly(req, i);
    }
  }

  /** The overview issues catalogue calls only. */
  lemma SchemaOverviewCatalogueOnly(req: Request, i: nat)
    requires i < |GetSchemaOverview(req).calls|
    ensures !GetSchemaOverview(req).calls[i].RawQuery? && !GetSchemaOverview(req).calls[i].RawExecute?
  {
    if ValidateAccess(req.env, req.headers).Granted? && req.db.tables.Ok? {
      SummariseAllCatalogueOnly(req.db, req.db.tables.value);
    }
  }

  lemma {:induction false} SummariseAllCatalogueOnly(db: Db, tables: seq<string>)
    ensures forall i | 0 <= i < |SummariseAll(db, tables).1| ::
      !SummariseAll(db, tables).1[i].RawQuery? && !SummariseAll(db, tables).1[i].RawExecute?
    decreases |tables|
  {
    if tables != [] {
      SummariseAllCatalogueOnly(db, tables[1..]);
    }
  }
}
