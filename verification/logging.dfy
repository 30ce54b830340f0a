/**
 * Audit-log formatting of the MCP database server: the structured operation
 * line, the redacted and truncated SQL line, and the access-denied line.
 * The clock is left to the caller: timestamps and durations are given values.
 */
module Logging {
  import opened Text
  import opened SqlText

  /** `LogEntry`: optional parts are `None` when left undefined. */
  datatype LogEntry = LogEntry(
    timestamp: string, tool: string,
    statementClass: Option<string>, durationMs: Option<int>, rowCount: Option<int>,
    error: Option<string>, reason: Option<string>, requestIp: Option<string>)

  /** One optional part of a log line, in the order the line lists them. */
  datatype Field =
    | ClassField(statementClass: string)
    | DurationField(ms: int)
    | RowsField(rows: int)
    | ErrorField(error: string)
    | ReasonField(reason: string)
    | IpField(ip: string)
  {
    /** Position of the field kind in the line. */
    function Rank(): nat {
      match this
      case ClassField(_) => 0
      case DurationField(_) => 1
      case RowsField(_) => 2
      case ErrorField(_) => 3
      case ReasonField(_) => 4
      case IpField(_) => 5
    }

    function Render(): string {
      match this
      case ClassField(c) => "[" + c + "]"
      case DurationField(ms) => "[" + IntToString(ms) + "ms]"
      case RowsField(n) => "[" + IntToString(n) + " rows]"
      case ErrorField(e) => "[ERROR: " + e + "]"
      case ReasonField(r) => "[Reason: " + r + "]"
      case IpField(ip) => "[IP: " + ip + "]"
    }
  }

  /** A string part is written only when truthy, that is, non-empty. */
  function TextPart(v: Option<string>, f: string -> Field): seq<Field> {
    if v.Some? && v.value != "" then [f(v.value)] else []
  }

  /** A number part is written whenever it is defined, 0 included. */
  function NumberPart(v: Option<int>, f: int -> Field): seq<Field> {
    if v.Some? then [f(v.value)] else []
  }

  /** The optional parts of `logMCPOperation`, in the order they are pushed. */
  function Fields(e: LogEntry): (r: seq<Field>)
    ensures forall i, j | 0 <= i < j < |r| :: r[i].Rank() < r[j].Rank()
    ensures |r| <= 6
  {
    TextPart(e.statementClass, c => ClassField(c))
    + NumberPart(e.durationMs, n => DurationField(n))
    + NumberPart(e.rowCount, n => RowsField(n))
    + TextPart(e.error, s => ErrorField(s))
    + TextPart(e.reason, s => ReasonField(s))
    + TextPart(e.requestIp, s => IpField(s))
  }

  /** The line's fixed head: tag, timestamp, tool. */
  function Header(e: LogEntry): seq<string> {
    ["[MCP_DB]", "[" + e.timestamp + "]", "[" + e.tool + "]"]
  }

  function Renders(fs: seq<Field>): (r: seq<string>)
    ensures |r| == |fs| && forall i | 0 <= i < |fs| :: r[i] == fs[i].Render()
  {
    seq(|fs|, i requires 0 <= i < |fs| => fs[i].Render())
  }

  /** The parts of the line, joined with single spaces. */
  function LogParts(e: LogEntry): (r: seq<string>)
    ensures |r| >= 3 && r[..3] == Header(e)
  {
    Header(e) + Renders(Fields(e))
  }

  function LogLine(e: LogEntry): string {
    Join(LogParts(e), ' ')
  }

  lemma JoinCons(a: string, rest: seq<string>, sep: char)
    ensures Join([a] + rest, sep) == if rest == [] then a else a + [sep] + Join(rest, sep)
  {
    assert ([a] + rest)[1..] == rest;
  }

  lemma JoinStartsWithFirst(a: string, rest: seq<string>, sep: char)
    ensures StartsWith(Join([a] + rest, sep), a)
  {
    JoinCons(a, rest, sep);
    if rest != [] {
      assert (a + [sep] + Join(rest, sep))[..|a|] == a;
    }
  }

  lemma JoinHead(h0: string, h1: string, h2: string, rest: seq<string>)
    ensures StartsWith(Join([h0] + ([h1] + ([h2] + rest)), ' '), h0 + [' '] + h1 + [' '] + h2)
  {
    JoinCons(h0, [h1] + ([h2] + rest), ' ');
    JoinCons(h1, [h2] + rest, ' ');
    JoinStartsWithFirst(h2, rest, ' ');
    var tail := Join([h2] + rest, ' ');
    var line := h0 + [' '] + (h1 + [' '] + tail);
    assert tail[..|h2|] == h2;
    var head := h0 + [' '] + h1 + [' '] + h2;
    assert line == head + tail[|h2|..];
  }

  /** The line always starts with the tag, the timestamp and the tool, in that order. */
  lemma LogLineHead(e: LogEntry)
    ensures StartsWith(LogLine(e), "[MCP_DB] [" + e.timestamp + "] [" + e.tool + "]")
  {
    var h0, h1, h2 := "[MCP_DB]", "[" + e.timestamp + "]", "[" + e.tool + "]";
    var rest := Renders(Fields(e));
    LogPartsShape(e);
    JoinHead(h0, h1, h2, rest);
    HeadText(e.timestamp, e.tool);
  }

  lemma LogPartsShape(e: LogEntry)
    ensures LogParts(e) == ["[MCP_DB]"] + (["[" + e.timestamp + "]"] + (["[" + e.tool + "]"] + Renders(Fields(e))))
  {
  }

  lemma HeadText(ts: string, tool: string)
    ensures "[MCP_DB]" + [' '] + ("[" + ts + "]") + [' '] + ("[" + tool + "]") == "[MCP_DB] [" + ts + "] [" + tool + "]"
  {
  }

  /** Records one field of a line in an entry. */
  function Apply(e: LogEntry, f: Field): LogEntry {
    match f
    case ClassField(c) => e.(statementClass := Some(c))
    case DurationField(n) => e.(durationMs := Some(n))
    case RowsField(n) => e.(rowCount := Some(n))
    case ErrorField(s) => e.(error := Some(s))
    case ReasonField(s) => e.(reason := Some(s))
    case IpField(s) => e.(requestIp := Some(s))
  }

  /**
   * Reading the fields back: the entry a line describes, with the parts
   * left out of the line as `None`.
   */
  function EntryOf(timestamp: string, tool: string, fs: seq<Field>): LogEntry
    decreases |fs|
  {
    if fs == [] then LogEntry(timestamp, tool, None, None, None, None, None, None)
    else Apply(EntryOf(timestamp, tool, fs[..|fs| - 1]), fs[|fs| - 1])
  }

  /** Empty text counts as absent. */
  function Normal(v: Option<string>): Option<string> {
    if v == Some("") then None else v
  }

  /** Appending one part, or none, to the fields read so far. */
  lemma EntryOfStep(ts: string, tool: string, a: seq<Field>, f: seq<Field>)
    requires |f| <= 1
    ensures EntryOf(ts, tool, a + f) == if f == [] then EntryOf(ts, tool, a) else Apply(EntryOf(ts, tool, a), f[0])
  {
    if f == [] {
      assert a + f == a;
    } else {
      assert (a + f)[..|a|] == a;
    }
  }

  /**
   * The fields of a line determine the entry: every defined number and
   * every non-empty text is written, each once, so only empty text is lost.
   */
  lemma FieldsRoundTrip(e: LogEntry)
    ensures EntryOf(e.timestamp, e.tool, Fields(e))
         == LogEntry(e.timestamp, e.tool, Normal(e.statementClass), e.durationMs, e.rowCount,
                     Normal(e.error), Normal(e.reason), Normal(e.requestIp))
  {
    var ts, tool := e.timestamp, e.tool;
    var head := TextPart(e.statementClass, c => ClassField(c))
      + NumberPart(e.durationMs, n => DurationField(n))
      + NumberPart(e.rowCount, n => RowsField(n));
    FieldsHead(e);
    FieldsTail(e, head);
  }

  /** The class, duration and row count read back. */
  lemma FieldsHead(e: LogEntry)
    ensures EntryOf(e.timestamp, e.tool, TextPart(e.statementClass, c => ClassField(c))
                                         + NumberPart(e.durationMs, n => DurationField(n))
                                         + NumberPart(e.rowCount, n => RowsField(n)))
         == LogEntry(e.timestamp, e.tool, Normal(e.statementClass), e.durationMs, e.rowCount, None, None, None)
  {
    var ts, tool := e.timestamp, e.tool;
    var f1 := TextPart(e.statementClass, c => ClassField(c));
    var f2 := NumberPart(e.durationMs, n => DurationField(n));
    var f3 := NumberPart(e.rowCount, n => RowsField(n));
    var e1 := LogEntry(ts, tool, Normal(e.statementClass), None, None, None, None, None);
    assert [] + f1 == f1;
    EntryOfStep(ts, tool, [], f1);
    assert EntryOf(ts, tool, f1) == e1;
    var e2 := e1.(durationMs := e.durationMs);
    EntryOfStep(ts, tool, f1, f2);
    assert EntryOf(ts, tool, f1 + f2) == e2;
    EntryOfStep(ts, tool, f1 + f2, f3);
  }

  /** The error, reason and address read back after the first three fields. */
  lemma FieldsTail(e: LogEntry, head: seq<Field>)
    requires EntryOf(e.timestamp, e.tool, head)
          == LogEntry(e.timestamp, e.tool, Normal(e.statementClass), e.durationMs, e.rowCount, None, None, None)
    ensures EntryOf(e.timestamp, e.tool, head + TextPart(e.error, s => ErrorField(s))
                                              + TextPart(e.reason, s => ReasonField(s))
                                              + TextPart(e.requestIp, s => IpField(s)))
         == LogEntry(e.timestamp, e.tool, Normal(e.statementClass), e.durationMs, e.rowCount,
                     Normal(e.error), Normal(e.reason), Normal(e.requestIp))
  {
    var ts, tool := e.timestamp, e.tool;
    var f4 := TextPart(e.error, s => ErrorField(s));
    var f5 := TextPart(e.reason, s => ReasonField(s));
    var f6 := TextPart(e.requestIp, s => IpField(s));
    var e3 := LogEntry(ts, tool, Normal(e.statementClass), e.durationMs, e.rowCount, None, None, None);
    var e4 := e3.(error := Normal(e.error));
    EntryOfStep(ts, tool, head, f4);
    assert EntryOf(ts, tool, head + f4) == e4;
    var e5 := e4.(reason := Normal(e.reason));
    EntryOfStep(ts, tool, head + f4, f5);
    assert EntryOf(ts, tool, head + f4 + f5) == e5;
    EntryOfStep(ts, tool, head + f4 + f5, f6);
  }

  /* ---------------------------------------------------------------------- */
  /* SQL and parameter logging                                               */
  /* ---------------------------------------------------------------------- */

  const MAX_LOGGED_SQL: nat := 500
  const MAX_LOGGED_PARAM: nat := 50

  /** Text longer than `max` keeps its first `max - 3` characters and gains `...`. */
  function Truncate(s: string, max: nat): (r: string)
    requires max >= 3
    ensures |r| <= max
    ensures |s| <= max ==> r == s
    ensures |s| > max ==> |r| == max && r == s[..max - 3] + "..."
  {
    if |s| > max then s[..max - 3] + "..." else s
  }

  /** A query parameter: text, or any other JSON value logged as given. */
  datatype Param = TextParam(s: string) | OtherParam(value: string)

  function TruncateParam(p: Param): (r: Param)
    ensures p.OtherParam? ==> r == p
    ensures p.TextParam? ==> r.TextParam? && |r.s| <= MAX_LOGGED_PARAM
  {
    match p
    case TextParam(s) => TextParam(Truncate(s, MAX_LOGGED_PARAM))
    case OtherParam(_) => p
  }

  /** What `logSQL` writes: the SQL text, and the parameter list when there is one. */
  datatype SqlLog = SqlLog(sql: string, params: Option<seq<Param>>)

  function LogSql(sql: string, params: Option<seq<Param>>): (r: SqlLog)
    ensures |r.sql| <= MAX_LOGGED_SQL
    ensures r.params.Some? <==> params.Some? && params.value != []
    ensures r.params.Some? ==> |r.params.value| == |params.value|
  {
    var redacted := RedactSensitiveData(sql);
    SqlLog(Truncate(redacted, MAX_LOGGED_SQL),
           if params.Some? && params.value != [] then
             Some(seq(|params.value|, i requires 0 <= i < |params.value| => TruncateParam(params.value[i])))
           else None)
  }

  /** The logged SQL is always a prefix of the redacted text, cut only when too long. */
  lemma LoggedSqlIsRedactedPrefix(sql: string)
    ensures var logged := LogSql(sql, None).sql;
            var red := RedactSensitiveData(sql);
            (|red| <= MAX_LOGGED_SQL ==> logged == red)
            && (|red| > MAX_LOGGED_SQL ==> logged[..497] == red[..497] && logged[497..] == "...")
  {
  }

  /**
   * A secret assigned in the query never reaches the log: the logged text
   * is the query with the value replaced, up to truncation.
   */
  lemma LoggedSqlHidesSecret(key: SecretKey, p: string, v: string, q: string)
    requires '\'' !in p && '\'' !in v && '\'' !in q
    requires '@' !in p && '@' !in v && '@' !in q
    requires '+' !in p && '+' !in v && '+' !in q
    requires |p + KeyValueText(key.Name(), "[REDACTED]") + q| <= MAX_LOGGED_SQL
    ensures LogSql(p + KeyValueText(key.Name(), v) + q, None).sql == p + KeyValueText(key.Name(), "[REDACTED]") + q
  {
    RedactAssignment(key, p, v, q);
  }

  /** `logAccessDenied(reason, ip?)`: console arguments joined by spaces; the IP tag only when given. */
  function AccessDeniedLine(reason: string, requestIp: Option<string>): string {
    "[MCP_DB] Access Denied: " + reason + " "
      + (if requestIp.Some? && requestIp.value != "" then "[IP: " + requestIp.value + "]" else "")
  }

  /** The line with an address is the line without one, followed by the address tag. */
  lemma AccessDeniedIpTag(reason: string, ip: string)
    ensures ip != "" ==> AccessDeniedLine(reason, Some(ip)) == AccessDeniedLine(reason, None) + "[IP: " + ip + "]"
    ensures AccessDeniedLine(reason, Some("")) == AccessDeniedLine(reason, None)
    ensures EndsWith(AccessDeniedLine(reason, None), reason + " ")
  {
    var line := AccessDeniedLine(reason, None);
    assert line == "[MCP_DB] Access Denied: " + (reason + " ");
  }
}
