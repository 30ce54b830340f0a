/**
 * Configuration constants of the MCP database server: limits, the statement
 * types the classifier can report, the DML allow-list and the user-facing
 * error messages.
 */
module McpConstants {
  import opened Text

  /** Row limit used for a SELECT when the caller gives none. */
  const DEFAULT_LIMIT: nat := 200
  /** Largest row limit the `execute_sql_select` input schema accepts. */
  const MAX_ROWS: nat := 2000
  /** Default statement timeout, in milliseconds. */
  const STATEMENT_TIMEOUT_MS: nat := 10000
  const BASE_PATH: string := "/api/mcp"

  datatype StatementType =
    | Select | Insert | Update | Delete
    | Create | Alter | Drop | Truncate | Grant | Revoke
    | Unknown
  {
    /** The string value the source uses for the type. */
    function Name(): (r: string)
      ensures |r| >= 4
    {
      match this
      case Select => "SELECT"
      case Insert => "INSERT"
      case Update => "UPDATE"
      case Delete => "DELETE"
      case Create => "CREATE"
      case Alter => "ALTER"
      case Drop => "DROP"
      case Truncate => "TRUNCATE"
      case Grant => "GRANT"
      case Revoke => "REVOKE"
      case Unknown => "UNKNOWN"
    }
  }

  /** Every statement type, in declaration order. */
  const ALL_STATEMENT_TYPES: seq<StatementType> :=
    [Select, Insert, Update, Delete, Create, Alter, Drop, Truncate, Grant, Revoke, Unknown]

  /** The statement types the classifier accepts as data manipulation (SELECT included). */
  const ALLOWED_DML: seq<StatementType> := [Select, Insert, Update, Delete]

  /** Recovers the statement type from its name; the inverse of `StatementType.Name`. */
  function StatementTypeOf(name: string): (r: Option<StatementType>)
    ensures r.Some? ==> r.value.Name() == name
  {
    if name == "SELECT" then Some(Select)
    else if name == "INSERT" then Some(Insert)
    else if name == "UPDATE" then Some(Update)
    else if name == "DELETE" then Some(Delete)
    else if name == "CREATE" then Some(Create)
    else if name == "ALTER" then Some(Alter)
    else if name == "DROP" then Some(Drop)
    else if name == "TRUNCATE" then Some(Truncate)
    else if name == "GRANT" then Some(Grant)
    else if name == "REVOKE" then Some(Revoke)
    else if name == "UNKNOWN" then Some(Unknown)
    else None
  }

  /** Every statement type's name parses back to it, so the eleven names are pairwise distinct. */
  lemma StatementTypeNameRoundTrip(t: StatementType)
    ensures StatementTypeOf(t.Name()) == Some(t)
  {
  }

  lemma StatementTypeNamesDistinct(a: StatementType, b: StatementType)
    ensures a.Name() == b.Name() <==> a == b
  {
    StatementTypeNameRoundTrip(a);
    StatementTypeNameRoundTrip(b);
  }

  lemma StatementTypesListed(t: StatementType)
    ensures |ALL_STATEMENT_TYPES| == 11
    ensures t in ALL_STATEMENT_TYPES
    ensures forall i, j | 0 <= i < j < |ALL_STATEMENT_TYPES| :: ALL_STATEMENT_TYPES[i] != ALL_STATEMENT_TYPES[j]
  {
  }

  /** `ALLOWED_DML.includes(t)`. */
  predicate IsAllowedDml(t: StatementType) {
    t in ALLOWED_DML
  }

  lemma AllowedDmlIsExactly(t: StatementType)
    ensures IsAllowedDml(t) <==> t == Select || t == Insert || t == Update || t == Delete
  {
  }

  lemma LimitsConsistent()
    ensures 0 < DEFAULT_LIMIT <= MAX_ROWS
    ensures STATEMENT_TIMEOUT_MS == 10000
  {
  }

  datatype ErrorKind =
    | NotDevelopment | NotEnabled | NotLocalhost
    | NotSelect | NotDml | ForbiddenDdl | InvalidSql
  {
    /** The user-facing text: a short lead that differs between kinds, then the rest. */
    function Message(): (r: string)
      ensures |r| > 0
    {
      Lead() + Rest()
    }

    function Lead(): string {
      match this
      case NotDevelopment => "MCP server is"
      case NotEnabled => "MCP database"
      case NotLocalhost => "MCP server only"
      case NotSelect => "Only SELECT "
      case NotDml => "Only INSERT,"
      case ForbiddenDdl => "SQL contains"
      case InvalidSql => "No valid SQL"
    }

    function Rest(): string {
      match this
      case NotDevelopment => " only available in development environment"
      case NotEnabled => " access is disabled. Set MCP_DEV_ONLY_DB_ACCESS=true in your .env.local file to enable it."
      case NotLocalhost => " accepts requests from localhost"
      case NotSelect => "statements are allowed"
      case NotDml => " UPDATE, or DELETE statements are allowed"
      case ForbiddenDdl => " forbidden DDL or administrative commands"
      case InvalidSql => " statements found"
    }
  }

  /**
   * Reads the failure kind off the few characters in which the seven messages
   * differ; on every message it recovers the kind that produced it.
   */
  function ErrorKindOf(msg: string): ErrorKind
  {
    if |msg| < 12 then InvalidSql
    else if msg[0] == 'M' then
      if msg[4] == 'd' then NotEnabled else if msg[11] == 'i' then NotDevelopment else NotLocalhost
    else if msg[0] == 'O' then
      if msg[5] == 'S' then NotSelect else NotDml
    else if msg[0] == 'S' then ForbiddenDdl
    else InvalidSql
  }

  /** The lead alone decides the kind, whatever follows it. */
  lemma {:induction false} LeadDecidesKind(k: ErrorKind, rest: string)
    ensures ErrorKindOf(k.Lead() + rest) == k
  {
    var h := k.Lead();
    var m := h + rest;
    match k
    case NotDevelopment =>
      assert m[0] == h[0] == 'M' && m[4] == h[4] == 's' && m[11] == h[11] == 'i';
    case NotEnabled =>
      assert m[0] == h[0] == 'M' && m[4] == h[4] == 'd';
    case NotLocalhost =>
      assert m[0] == h[0] == 'M' && m[4] == h[4] == 's' && m[11] == h[11] == 'o';
    case NotSelect =>
      assert m[0] == h[0] == 'O' && m[5] == h[5] == 'S';
    case NotDml =>
      assert m[0] == h[0] == 'O' && m[5] == h[5] == 'I';
    case ForbiddenDdl =>
      assert m[0] == h[0] == 'S';
    case InvalidSql =>
      assert m[0] == h[0] == 'N';
  }

  lemma ErrorKindRoundTrip(k: ErrorKind)
    ensures ErrorKindOf(k.Message()) == k
  {
    LeadDecidesKind(k, k.Rest());
  }

  /** The seven messages are pairwise distinct: a caller can tell the failure kind from the text. */
  lemma ErrorMessagesDistinct(a: ErrorKind, b: ErrorKind)
    ensures a.Message() == b.Message() <==> a == b
  {
    if a.Message() == b.Message() {
      ErrorKindRoundTrip(a);
      ErrorKindRoundTrip(b);
    }
  }
}
