# Dafny model of the MCP SQL gateway, the roadmap views and the site configuration

This project models three pieces of a Next.js application in Dafny 4.11. It also proves properties of each.

- **The MCP database gateway.** Its tools (`health`, `get_schema_overview`, `get_table_details`, `execute_sql_select`, `execute_sql_mutation`, `explain_query`, `validate_sql`) let a local assistant look at a development database and change it. The model covers:
  - the statement classifier and its deny-list;
  - the limit and redaction rewriting of SQL text;
  - the dialect detection and the two dialect adapters;
  - the access gate (environment, feature flag, loopback);
  - the log lines;
  - the tool handlers, as functions from a request to a reply, the list of database calls made, and the log records written.
- **The roadmap feature's pure logic.** This covers:
  - the item schema and its constants;
  - the filters carried in the URL (decoding, encoding, toggling);
  - the filter predicate;
  - the health dashboard's counts;
  - the status board, the priority list and the timeline;
  - what a roadmap card shows.
- **The site configuration.** This is the configuration file with five `NEXT_PUBLIC_*` environment variables laid over it.

## Modelling choices

- JavaScript strings are `seq<char>`. Upper- and lower-casing are modelled on ASCII letters only.
- JavaScript numbers that matter here are integers, so they are modelled as `Number = Int(int) | NaN`. `parseInt` is modelled as optional white space, an optional sign and a run of decimal digits.
- `Math.round(part / whole * 100)` is modelled in exact arithmetic as the nearest integer, with halves rounded up.
- Regular expressions are written as explicit predicates over positions. A global replace is modelled as a left-to-right scan that replaces the leftmost match and resumes after it.
- The database is an oracle record. It has one function per kind of call: table catalogue, columns, keys, indexes, raw query, raw command. Each returns a value or a thrown failure. The handlers record every call they make, so "no database call" and "only catalogue calls" can be stated.
- Module-level state is passed in and returned explicitly. This covers the memoised database type. The clock is modelled as the readings a request sees. The environment and the request headers are modelled as records.
- URL search parameters are modelled as a sequence of key–value pairs in insertion order.

The handlers follow the code where it differs from the written description of the system:
- `health` replies with a fixed text and does not report the dialect.
- The handlers issue PostgreSQL catalogue queries directly instead of going through the dialect adapter.
- A caller's `rowLimit` is used as given and is never clamped to `MAX_ROWS`.
- `explain_query` logs the SQL after it has already been redacted once, so the text is redacted twice. It is modelled as written.

## Model

| member | source | states |
|---|---|---|
| McpConstants.StatementTypeNameRoundTrip | src/layers/features/mcp-database-server/config/constants.ts:20-32 | each of the eleven statement-type names reads back as its type |
| McpConstants.StatementTypeNamesDistinct | src/layers/features/mcp-database-server/config/constants.ts:20-32 | two statement types have the same name exactly when they are the same type |
| McpConstants.StatementTypesListed | src/layers/features/mcp-database-server/config/constants.ts:20-32 | the list of statement types has eleven distinct entries and contains every type |
| McpConstants.AllowedDmlIsExactly | src/layers/features/mcp-database-server/config/constants.ts:37-42 | a type is allowed data manipulation exactly when it is SELECT, INSERT, UPDATE or DELETE |
| McpConstants.LimitsConsistent | src/layers/features/mcp-database-server/config/constants.ts:5-17 | the default row limit is positive and no larger than the maximum; the statement timeout is 10 seconds |
| McpConstants.ErrorKindRoundTrip | src/layers/features/mcp-database-server/config/constants.ts:45-53 | the failure kind can be recovered from each error message |
| McpConstants.ErrorMessagesDistinct | src/layers/features/mcp-database-server/config/constants.ts:45-53 | the seven error messages are pairwise different |
| SqlParser.Classify | src/layers/features/mcp-database-server/lib/sql-parser.ts:23-112 | a result is valid exactly when it carries no error; the empty-input error is reported exactly when nothing is left after comment removal and trimming, and only it lacks a statement type; the forbidden-DDL error is reported exactly when the cleaned text is non-empty and matches a deny-list pattern; the statement type is the one the leading keyword of the raw text selects; a valid result is never allowed DDL and is allowed DML exactly when its type is in the allowed list |
| SqlParser.ValidateSqlSyntax | src/layers/features/mcp-database-server/lib/sql-parser.ts:114-116 | a statement accepted as valid has a type and no deny-list match in its cleaned text |
| SqlParser.ClassifyIgnoresCase | src/layers/features/mcp-database-server/lib/sql-parser.ts:39-72 | upper-casing a statement does not change its classification |
| SqlParser.ClassifyIgnoresLeadingSpace | src/layers/features/mcp-database-server/lib/sql-parser.ts:39-72 | white space in front of a statement does not change its classification |
| SqlParser.ClassifyIgnoresCommentedTail | src/layers/features/mcp-database-server/lib/sql-parser.ts:26-30 | text after `--` on the last line, such as a commented-out DROP TABLE, has no effect on the classification |
| SqlParser.CleanIgnoresBlockComment | src/layers/features/mcp-database-server/lib/sql-parser.ts:26-30 | a block comment without `-` or a closing delimiter inside, after text with no `-` or `/`, is removed without a trace: the cleaned text is that of the text around it joined directly |
| SqlParser.ClassifyIgnoresBlockComment | src/layers/features/mcp-database-server/lib/sql-parser.ts:23-112 | such a block comment after a leading keyword has no effect on the classification: the statement is classified as if the comment were not there |
| SqlParser.BlockCommentVanishes | src/layers/features/mcp-database-server/lib/sql-parser.ts:28 | a block comment at the front is removed up to its first closing delimiter, and the rest is scanned as if it stood alone |
| SqlParser.CommentedDropTableAllowed | src/layers/features/mcp-database-server/lib/sql-parser.ts:23-112 | `SELECT 1 /* DROP TABLE t */` is a valid SELECT |
| SqlParser.SelectOneNotForbidden | src/layers/features/mcp-database-server/lib/sql-parser.ts:75-98 | `SELECT 1` matches none of the deny-list patterns |
| SqlParser.LineCommentFirstIsUnknown | src/layers/features/mcp-database-server/lib/sql-parser.ts:26-72 | a statement that starts with a line comment is typed UNKNOWN, because keywords are matched on the raw text; it counts as empty when nothing follows the comment |
| SqlParser.LeadingKeywordsExclusive | src/layers/features/mcp-database-server/lib/sql-parser.ts:42-72 | at most one keyword can lead a statement |
| SqlParser.LeadingTypeOfKeyword | src/layers/features/mcp-database-server/lib/sql-parser.ts:42-72 | whichever statement keyword leads the raw text decides the type |
| SqlParser.NonLetterStartIsUnknown | src/layers/features/mcp-database-server/lib/sql-parser.ts:42-72 | a statement whose first visible character is not a letter is typed UNKNOWN |
| SqlParser.GluedSelectIsUnknown | src/layers/features/mcp-database-server/lib/sql-parser.ts:42-43 | a SELECT glued to what follows it (`SELECT*FROM t`) is typed UNKNOWN |
| SqlParser.PrefixWithoutSelectIsUnknown | src/layers/features/mcp-database-server/lib/sql-parser.ts:62-72 | a WITH or EXPLAIN statement without the word SELECT in its cleaned text is typed UNKNOWN |
| SqlParser.KeywordThenSelectWitness | src/layers/features/mcp-database-server/lib/sql-parser.ts:62-72 | the keyword, one line of text and `SELECT` separated by white space meet the WITH/EXPLAIN test |
| SqlParser.DropTableIsForbidden | src/layers/features/mcp-database-server/lib/sql-parser.ts:75-98 | in text with no `-` or `/`, a whole-word `DROP TABLE` spelled with one space is rejected as forbidden DDL wherever it stands |
| SqlParser.GrantIsForbiddenButTyped | src/layers/features/mcp-database-server/lib/sql-parser.ts:75-105 | a GRANT statement keeps its type but is rejected as forbidden |
| SqlParser.SelectOnlyMeans | src/layers/features/mcp-database-server/lib/sql-parser.ts:118-121 | the SELECT gate admits exactly the statements that have no deny-list match and are typed SELECT |
| SqlParser.DmlOnlyMeans | src/layers/features/mcp-database-server/lib/sql-parser.ts:123-130 | the DML gate admits exactly the statements that have no deny-list match and lead with INSERT, UPDATE or DELETE |
| SqlParser.DmlOnlyIsExactly | src/layers/features/mcp-database-server/lib/sql-parser.ts:123-130 | the DML gate passes exactly the valid INSERT, UPDATE and DELETE classifications |
| SqlParser.GatesExclusive | src/layers/features/mcp-database-server/lib/sql-parser.ts:118-130 | no statement passes both the SELECT gate and the DML gate |
| SqlParser.PlainSelectIsSelectOnly | src/layers/features/mcp-database-server/lib/sql-parser.ts:118-121 | a SELECT-led statement with no deny-list match passes the SELECT gate and not the DML gate |
| SqlText.StripSemicolonMeans | src/layers/features/mcp-database-server/lib/sql-parser.ts:137 | removing a trailing semicolon cuts the text at the semicolon that starts the white-space tail, and otherwise changes nothing |
| SqlText.AddLimitToSelect | src/layers/features/mcp-database-server/lib/sql-parser.ts:132-141 | the result always mentions LIMIT; a statement that already mentions it is returned unchanged |
| SqlText.AddLimitAppends | src/layers/features/mcp-database-server/lib/sql-parser.ts:132-141 | a statement without LIMIT gets ` LIMIT n` appended, after its trailing semicolon is removed, and the number reads back as n |
| SqlText.AddLimitIdempotent | src/layers/features/mcp-database-server/lib/sql-parser.ts:132-141 | adding a limit a second time changes nothing |
| SqlText.UnlimitedGetsNoLimit | src/layers/features/mcp-database-server/lib/sql-parser.ts:133-135 | the LIMIT test is a plain substring test, so a statement mentioning `unlimited` gets no limit |
| SqlText.KeyValueMatchMeans | src/layers/features/mcp-database-server/lib/sql-parser.ts:148-157 | the key-value scanner matches exactly when the text has the `key = 'value'` shape, and it masks the value |
| SqlText.EmailMatchMeans | src/layers/features/mcp-database-server/lib/sql-parser.ts:160-163 | the e-mail scanner matches exactly when an address shape starts the text; it takes the longest such shape and masks its local part |
| SqlText.RedactAssignment | src/layers/features/mcp-database-server/lib/sql-parser.ts:143-172 | a quoted password, secret, token or api_key value in otherwise plain text is replaced by `[REDACTED]` and nothing else changes |
| SqlText.EmailMasked | src/layers/features/mcp-database-server/lib/sql-parser.ts:160-163 | an address keeps the first two characters of its local part, which is masked with `***`, and keeps its domain |
| SqlText.PhoneMasked | src/layers/features/mcp-database-server/lib/sql-parser.ts:166-169 | `+1` and ten digits keep the first five and last two characters, with `***` between them |
| SqlText.RedactLeavesPlainText | src/layers/features/mcp-database-server/lib/sql-parser.ts:143-172 | text with no quote, `@` or `+` passes through redaction unchanged |
| DbAdapter.ResolveUrl | src/layers/features/mcp-database-server/lib/db-adapter.ts:56-57 | a non-empty argument wins, then the environment's URL, then the empty string |
| DbAdapter.DetectDatabaseType | src/layers/features/mcp-database-server/lib/db-adapter.ts:56-76 | the type is PostgreSQL exactly when the URL has a PostgreSQL marker and no SQLite marker |
| DbAdapter.SqliteSuffixWins | src/layers/features/mcp-database-server/lib/db-adapter.ts:60-66 | a URL ending in `.db` or `.sqlite` is SQLite, whatever its scheme |
| DbAdapter.PostgresScheme | src/layers/features/mcp-database-server/lib/db-adapter.ts:68-73 | a `postgres://` or `postgresql://` URL not ending in an SQLite file name is PostgreSQL |
| DbAdapter.LocalhostIsPostgres | src/layers/features/mcp-database-server/lib/db-adapter.ts:68-73 | any URL mentioning localhost and not marked as SQLite is PostgreSQL |
| DbAdapter.NoUrlIsSqlite | src/layers/features/mcp-database-server/lib/db-adapter.ts:56-76 | with no URL at all, the database is taken to be SQLite |
| DbAdapter.GetDatabaseType | src/layers/features/mcp-database-server/lib/db-adapter.ts:81-86 | after a lookup the memo holds the answer; a filled memo is neither re-read nor changed |
| DbAdapter.CacheIsSticky | src/layers/features/mcp-database-server/lib/db-adapter.ts:81-86 | once the memo is filled, a changed environment gives the same answer |
| DbAdapter.ResetRereadsEnvironment | src/layers/features/mcp-database-server/lib/db-adapter.ts:91-93 | after a reset, the next lookup reports what the environment's URL says |
| DbAdapter.GetQueryAdapter | src/layers/features/mcp-database-server/lib/db-adapter.ts:469-472 | an explicit type picks its adapter and leaves the memo alone; otherwise the memoised type decides |
| DbAdapter.AdapterForType | src/layers/features/mcp-database-server/lib/db-adapter.ts:469-472 | each dialect has exactly one adapter, and that adapter reports its own dialect |
| DbAdapter.TimeoutQueryRoundTrip | src/layers/features/mcp-database-server/lib/db-adapter.ts:228-234 | the PostgreSQL timeout statement carries the timeout, which parses back from its tail |
| DbAdapter.PgExplainUsesFirstPlan | src/layers/features/mcp-database-server/lib/db-adapter.ts:244-250 | the plan of the first row is reported when it is truthy, the whole row otherwise; later rows are ignored |
| DbAdapter.SqliteExplainRoundTrip | src/layers/features/mcp-database-server/lib/db-adapter.ts:379-398 | the steps a current SQLite reports are recovered exactly, in order |
| DbAdapter.SqliteExplainLegacy | src/layers/features/mcp-database-server/lib/db-adapter.ts:379-398 | older SQLite rows are read through their legacy columns; the `from` number is kept as text |
| DbAdapter.ParseExplain | src/layers/features/mcp-database-server/lib/db-adapter.ts:244-250 | the format of the explain result is the adapter's format |
| DbAdapter.ColumnTransformsAgree | src/layers/features/mcp-database-server/lib/db-adapter.ts:258-272 | both catalogues' descriptions of the same columns normalise back to those columns |
| DbAdapter.ForeignKeyTransformsAgree | src/layers/features/mcp-database-server/lib/db-adapter.ts:274-284 | a foreign key reported by either catalogue normalises to the same record |
| DbAdapter.SqliteTransformIndexes | src/layers/features/mcp-database-server/lib/db-adapter.ts:439-454 | one record per listed index; unique and primary flags come from `unique = 1` and origin `pk`; columns are left empty |
| DbAdapter.SqliteIndexColumns | src/layers/features/mcp-database-server/lib/db-adapter.ts:488-494 | the index's column names, in row order |
| DbAdapter.SqliteTransformConstraints | src/layers/features/mcp-database-server/lib/db-adapter.ts:456-459 | SQLite reports no named constraints |
| DbAdapter.PgTransformConstraints | src/layers/features/mcp-database-server/lib/db-adapter.ts:311-316 | one constraint per row, with its name and type |
| DbAdapter.GroupIndexRowsCorrect | src/layers/features/mcp-database-server/lib/db-adapter.ts:286-309 | grouping index rows gives one record per index name, in order of first appearance, holding its first row's flags and all its columns in row order |
| DbAdapter.GroupIndexRowsKeepsEveryRow | src/layers/features/mcp-database-server/lib/db-adapter.ts:286-309 | every row adds exactly one column to the grouping, so no row is lost or counted twice |
| DbAdapter.GroupIndexRowsOrder | src/layers/features/mcp-database-server/lib/db-adapter.ts:286-309 | earlier records belong to indexes that appear earlier in the rows |
| Security.UnforwardedUsesHost | src/layers/features/mcp-database-server/lib/security.ts:13-35 | without forwarding headers, a request is local exactly when its Host starts with a loopback name |
| Security.ForwardingOnlyRestricts | src/layers/features/mcp-database-server/lib/security.ts:26-33 | adding forwarding headers can only turn an accepted request into a refused one |
| Security.ForwardedMustBeLoopback | src/layers/features/mcp-database-server/lib/security.ts:26-33 | with forwarding headers, the first forwarded address must be exactly a loopback name, and the Host must be local too |
| Security.ForwardedListExamples | src/layers/features/mcp-database-server/lib/security.ts:13-35 | a loopback first hop in a list is accepted; a space-prefixed address is refused; `localhost.evil.com` passes the prefix test |
| Security.GetRequestIp | src/layers/features/mcp-database-server/lib/security.ts:41-46 | the reported address is never empty, and it is the forwarded address whenever there is one |
| Security.RequestIpUnknown | src/layers/features/mcp-database-server/lib/security.ts:41-46 | with no usable header, the address is `unknown` |
| Security.FallbackFlagExact | src/layers/features/mcp-database-server/lib/security.ts:51-66 | without validated settings, only the exact text `true` enables the gateway; `TRUE` and `1` do not |
| Security.GetConfigInt | src/layers/features/mcp-database-server/lib/security.ts:93-113 | a missing raw setting gives the default; a validated number is used as it is; NaN comes only from the default or a validated NaN |
| Security.ConfigIntRoundTrip | src/layers/features/mcp-database-server/lib/security.ts:93-113 | a setting written as a decimal integer reads back as that integer, on either path |
| Security.ConfigIntNonNumeric | src/layers/features/mcp-database-server/lib/security.ts:93-113 | a setting without a number falls back to the default |
| Logging.Fields | src/layers/features/mcp-database-server/lib/logging.ts:27-49 | the optional parts appear in the fixed order class, duration, rows, error, reason, IP; there are at most six |
| Logging.FieldsRoundTrip | src/layers/features/mcp-database-server/lib/logging.ts:24-52 | the entry can be read back from the parts of its line, with empty text counted as absent |
| Logging.LogLineHead | src/layers/features/mcp-database-server/lib/logging.ts:25 | every line starts with the tag, the timestamp and the tool |
| Logging.Truncate | src/layers/features/mcp-database-server/lib/logging.ts:59-60 | text longer than the limit keeps its first limit−3 characters and gains `...`; shorter text is unchanged |
| Logging.TruncateParam | src/layers/features/mcp-database-server/lib/logging.ts:67-69 | text parameters are cut to 50 characters; other values are logged as given |
| Logging.LogSql | src/layers/features/mcp-database-server/lib/logging.ts:57-72 | the logged SQL has at most 500 characters; parameters are logged only when there are some, and all of them |
| Logging.LoggedSqlIsRedactedPrefix | src/layers/features/mcp-database-server/lib/logging.ts:57-62 | the logged SQL is the redacted text, cut with `...` only when it is too long |
| Logging.LoggedSqlHidesSecret | src/layers/features/mcp-database-server/lib/logging.ts:57-62 | a quoted secret in a short statement never reaches the log |
| Logging.AccessDeniedIpTag | src/layers/features/mcp-database-server/lib/logging.ts:77-83 | the IP tag is added only for a non-empty address; the line otherwise ends with the reason |
| Handlers.ValidateAccess | src/layers/features/mcp-database-server/api/handlers.ts:151-177 | access is granted exactly in development, with the flag on, from loopback; each refusal names the first check that failed, and only the loopback refusal carries the address |
| Handlers.RefusedRequestsTouchNothing | src/layers/features/mcp-database-server/api/handlers.ts:194-200 | every tool answers a refused request with the refusal message, makes no database call, and logs only the denial |
| Handlers.CallerSqlOnlyAfterClassifier | src/layers/features/mcp-database-server/api/handlers.ts:521-541 | caller-supplied SQL reaches the database only through the SELECT, mutation and explain tools, only after access is granted, and only after the matching gate passes |
| Handlers.Health | src/layers/features/mcp-database-server/api/handlers.ts:188-217 | health makes no database call and gives the healthy reply exactly when access is granted |
| Handlers.ChooseLimit | src/layers/features/mcp-database-server/api/handlers.ts:537-541 | a non-zero row limit from the caller is used as given; without one or a setting, the limit is 200 |
| Handlers.ExecuteSelect | src/layers/features/mcp-database-server/api/handlers.ts:492-597 | a statement that fails the SELECT gate gets the refusal and no database call; any call sequence starts with the timeout statement and has at most two calls; a rows reply never holds a `bigint` cell |
| Handlers.SelectRunsLimitedQuery | src/layers/features/mcp-database-server/api/handlers.ts:533-594 | an admitted SELECT runs the timeout statement and then its limited form with the caller's parameters; serialisable rows are replied after a success record counting them; rows holding a `bigint` get the SELECT error prefix and the serialiser's message after both the success and an error record; a failing query gets the prefix and the failure's message |
| Handlers.SelectDefaultLimit | src/layers/features/mcp-database-server/api/handlers.ts:537-541 | without any row limit, a SELECT without LIMIT ends in ` LIMIT 200` |
| Handlers.ExecuteMutation | src/layers/features/mcp-database-server/api/handlers.ts:600-723 | a statement that fails the DML gate gets the refusal and no database call; a success reply reports the affected rows, and returned rows in it never hold a `bigint` cell |
| Handlers.MutationRoute | src/layers/features/mcp-database-server/api/handlers.ts:655-721 | a statement mentioning RETURNING runs as a query and returns its rows; any other runs as a command and reports the count; returned rows holding a `bigint` are reported as a mutation error after the success record, although the statement already ran |
| Handlers.MutationFailed | src/layers/features/mcp-database-server/api/handlers.ts:702-721 | a failure is reported with the mutation error prefix and one more log record |
| Handlers.ExplainQuery | src/layers/features/mcp-database-server/api/handlers.ts:726-803 | only statements that pass the SELECT gate are explained, and they are run as the prefixed EXPLAIN statement; a plan reply never holds a `bigint` cell |
| Handlers.ValidateSql | src/layers/features/mcp-database-server/api/handlers.ts:806-841 | validation never touches the database and replies with the classifier's result |
| Handlers.SampleOf | src/layers/features/mcp-database-server/api/handlers.ts:452 | the sample is the first at most five rows of the result |
| Handlers.GetTableDetails | src/layers/features/mcp-database-server/api/handlers.ts:348-489 | a details reply has at most five sample rows, none holding a `bigint` cell, and the grouped indexes; the first call always lists the columns |
| Handlers.MissingTableReported | src/layers/features/mcp-database-server/api/handlers.ts:381-383 | a table without columns is reported as not found, after a single catalogue call |
| Handlers.DetailsGroupIndexes | src/layers/features/mcp-database-server/api/handlers.ts:434-452 | the details list each index once, in order of first appearance, with all its columns |
| Handlers.SummariseAll | src/layers/features/mcp-database-server/api/handlers.ts:246-300 | a successful overview has one summary per table, in catalogue order, made with four calls each |
| Handlers.OverviewCoversTables | src/layers/features/mcp-database-server/api/handlers.ts:220-345 | a successful overview lists every catalogue table once, in order, and logs that count |
| Handlers.SchemaOverviewCatalogueOnly | src/layers/features/mcp-database-server/api/handlers.ts:220-345 | the overview issues catalogue calls only, never raw SQL |
| Handlers.ErrorMessageNotHealth | src/layers/features/mcp-database-server/api/handlers.ts:208-215 | no refusal message can be mistaken for the healthy reply |
| RoadmapModel.SlugsRoundTrip | src/layers/features/roadmap/model/schemas.ts:5-9 | each enumeration literal parses back to its value, so the literals are distinct |
| RoadmapModel.UnlistedLiteralRejected | src/layers/features/roadmap/model/schemas.ts:26-42 | any one of the five enumeration fields (type, MoSCoW, status, health, time horizon) holding text outside its listed literals rejects the item |
| RoadmapModel.ParseItemComplete | src/layers/features/roadmap/model/schemas.ts:26-42 | every valid item, written out, is accepted and read back as itself |
| RoadmapModel.TitleRule | src/layers/features/roadmap/model/schemas.ts:28 | a title is accepted exactly when it has 3 to 200 characters |
| RoadmapModel.DescriptionRule | src/layers/features/roadmap/model/schemas.ts:29 | a description of up to 2000 characters, or none, is accepted; a longer one is not |
| RoadmapModel.EffortRule | src/layers/features/roadmap/model/schemas.ts:35 | an effort is accepted exactly when it is absent or between 0 and 13 |
| RoadmapModel.ParseRoadmap | src/layers/features/roadmap/model/schemas.ts:49-59 | a roadmap is accepted exactly when its update time is a date-time, all three horizon settings are present and every item is accepted; its items then read back as written |
| RoadmapModel.LabelTablesAgree | src/layers/features/roadmap/model/constants.ts:36-114 | the filter panel's label tables and the formatters name every value alike |
| RoadmapModel.LabelsInjective | src/layers/features/roadmap/model/constants.ts:36-79 | different values get different labels, for each of the five formatters |
| RoadmapModel.HealthColors | src/layers/features/roadmap/model/constants.ts:13-18 | off track and blocked share a colour; otherwise the colour tells the health apart |
| RoadmapModel.EffortValuesFibonacci | src/layers/features/roadmap/model/constants.ts:91 | the effort scale is increasing, each value from the third on is the sum of the two before, and it ends at the schema's maximum of 13 |
| RoadmapFilters.Decode | src/layers/features/roadmap/lib/use-roadmap-filters.ts:32-40 | an absent or empty view reads as the default view; a missing list reads as empty; completed items are hidden exactly for the text `true` |
| RoadmapFilters.DecodeEncode | src/layers/features/roadmap/lib/use-roadmap-filters.ts:32-65 | the URL written for filters the URL can carry reads back as those filters |
| RoadmapFilters.DecodeIsEncodable | src/layers/features/roadmap/lib/use-roadmap-filters.ts:32-40 | whatever a URL holds, the filters read from it can be written back and read again unchanged |
| RoadmapFilters.Encode | src/layers/features/roadmap/lib/use-roadmap-filters.ts:43-62 | the URL carries no parameters exactly for the default filters, and at most one per field |
| RoadmapFilters.Overlay | src/layers/features/roadmap/lib/use-roadmap-filters.ts:44 | every field the update sets takes the update's value; every other field keeps the current one |
| RoadmapFilters.SetFiltersTakesEffect | src/layers/features/roadmap/lib/use-roadmap-filters.ts:43-65 | after an update, the new URL reads back as the current filters with the update laid over them |
| RoadmapFilters.Href | src/layers/features/roadmap/lib/use-roadmap-filters.ts:63-64 | the address is the bare pathname exactly when there are no parameters |
| RoadmapFilters.ToggleHideCompletedFlipsOnly | src/layers/features/roadmap/lib/use-roadmap-filters.ts:69 | toggling flips hiding completed items and leaves every other filter as it was |
| RoadmapFilters.ClearFiltersIsBarePath | src/layers/features/roadmap/lib/use-roadmap-filters.ts:70 | clearing goes to the bare pathname, which reads back as the defaults |
| RoadmapFilters.FilterItemsExact | src/layers/features/roadmap/ui/RoadmapVisualization.tsx:24-44 | an item is shown exactly when every list filter allows it and it is not a hidden completed item |
| RoadmapFilters.FilterItemsIdempotent | src/layers/features/roadmap/ui/RoadmapVisualization.tsx:24-44 | filtering the shown items again changes nothing |
| RoadmapFilters.InactiveFiltersKeepAll | src/layers/features/roadmap/ui/RoadmapVisualization.tsx:24-44 | without an active filter every item is shown |
| RoadmapFilters.ActiveMeansNotDefault | src/layers/features/roadmap/ui/RoadmapFilterPanel.tsx:41 | filters are active exactly when they differ from the defaults in something other than the view |
| RoadmapFilters.Toggle | src/layers/features/roadmap/ui/RoadmapFilterPanel.tsx:35-39 | the value is in the result exactly when it was not in the list; every other element is kept and none is added |
| RoadmapFilters.ToggleTwice | src/layers/features/roadmap/ui/RoadmapFilterPanel.tsx:35-39 | toggling an absent value twice gives the list back |
| HealthDashboard.RoundedPercent | src/layers/features/roadmap/ui/HealthDashboard.tsx:43 | the percentage is the integer nearest to part/whole·100, with halves rounded up, and lies between 0 and 100 |
| HealthDashboard.CalculateMetrics | src/layers/features/roadmap/ui/HealthDashboard.tsx:39-57 | the total is the item count; the other counts do not exceed it; the must-have share is the rounded percentage of must-have items, 0 for no items |
| HealthDashboard.AttentionCountStep | src/layers/features/roadmap/ui/HealthDashboard.tsx:47-49 | an added item raises the attention count by one when at risk or blocked, and not when off track |
| HealthDashboard.MustHaveWarningThreshold | src/layers/features/roadmap/ui/HealthDashboard.tsx:63-67 | the must-have card warns exactly when must-haves make up at least 60.5 % of the items |
| HealthDashboard.AttentionWarning | src/layers/features/roadmap/ui/HealthDashboard.tsx:104 | the attention card warns exactly when some item is at risk or blocked |
| RoadmapViews.ColumnsPartition | src/layers/features/roadmap/ui/StatusView.tsx:17-25 | columns over a complete, repeat-free key order show every item exactly once, in the column of its key, in input order |
| RoadmapViews.StatusViewPartition | src/layers/features/roadmap/ui/StatusView.tsx:13-51 | the board has the four status columns in order; every item is in its status column; an empty column shows `No items` |
| RoadmapViews.TimelineViewPartition | src/layers/features/roadmap/ui/TimelineView.tsx:14-45 | the timeline has the now, next and later columns; every item is in its horizon's column; an empty column shows its placeholder |
| RoadmapViews.CountLabelReadsBack | src/layers/features/roadmap/ui/TimelineView.tsx:27 | the count line reads back as the number of cards, and says `item` only for one |
| RoadmapViews.PriorityGroups | src/layers/features/roadmap/ui/PriorityView.tsx:26-39 | each section is non-empty and holds exactly the items of its priority |
| RoadmapViews.PriorityGroupsCover | src/layers/features/roadmap/ui/PriorityView.tsx:26-39 | every priority that has items gets a section |
| RoadmapViews.PriorityViewOrderAndTotal | src/layers/features/roadmap/ui/PriorityView.tsx:14-39 | sections follow the MoSCoW order and together hold every item exactly once |
| RoadmapViews.PriorityViewSkipsEmpty | src/layers/features/roadmap/ui/PriorityView.tsx:26-28 | a priority has a section exactly when some item has it |
| RoadmapCard.Truncate | src/layers/features/roadmap/ui/RoadmapCard.tsx:54-57 | a description over 120 characters keeps its first 120 and gains `...`; a shorter one is unchanged |
| RoadmapCard.TruncateIdempotent | src/layers/features/roadmap/ui/RoadmapCard.tsx:54-57 | truncating a truncated description changes nothing |
| RoadmapCard.DescriptionShown | src/layers/features/roadmap/ui/RoadmapCard.tsx:93-97 | the description is shown exactly when it is present and not empty |
| RoadmapCard.EffortBadge | src/layers/features/roadmap/ui/RoadmapCard.tsx:85-89 | the effort badge is shown exactly for a present, non-zero effort |
| RoadmapCard.Dependencies | src/layers/features/roadmap/ui/RoadmapCard.tsx:138-153 | the row appears only for some dependencies; at most the first two show as pills; a `+n more` badge appears exactly when there are more than two |
| RoadmapCard.DependenciesAccounted | src/layers/features/roadmap/ui/RoadmapCard.tsx:138-153 | the badge's number is exactly how many dependencies the pills leave out |
| RoadmapCard.IconMaps | src/layers/features/roadmap/ui/RoadmapCard.tsx:36-49 | the card's type icons are the model's; each map gives distinct values distinct icons |
| RoadmapCard.HealthDotMatchesLabel | src/layers/features/roadmap/ui/RoadmapCard.tsx:165-172 | the dot has the colour of the health label; only off track and blocked share it |
| SiteConfig.GetSiteConfig | src/config/index.ts:15-33 | contact details, links, SEO settings and legal pages come from the file unchanged |
| SiteConfig.EmptyEnvKeepsBase | src/config/index.ts:15-33 | with none of the five variables set, the file's configuration stands |
| SiteConfig.DefinedVariablesWin | src/config/index.ts:18-30 | a defined text variable replaces the file's value, even when empty; a defined flag variable decides its flag on its own |
| SiteConfig.OnlyFiveVariablesMatter | src/config/index.ts:15-33 | environments that agree on the five variables give the same configuration |
| SiteConfig.GetSiteConfigIdempotent | src/config/index.ts:15-33 | laying the same environment over the result again changes nothing |
| SiteConfig.ParseBooleanEnvFacts | src/config/index.ts:35-38 | an undefined value keeps the fallback; a defined one ignores it; case does not matter; `true` in any case is true, and empty, `1` and `yes` are false |
| Text.ParseIntRoundTrip | src/layers/features/mcp-database-server/lib/security.ts:100-111 | the decimal text of an integer parses back to that integer |
| Text.SplitJoin | src/layers/features/roadmap/lib/use-roadmap-filters.ts:34-36 | joining comma-free pieces with commas and splitting again gives the pieces back |

## Left out

- Non-ASCII case mapping. `toUpperCase` and `toLowerCase` (in the classifier, the LIMIT and RETURNING tests, and `parseBooleanEnv`) change ASCII letters only in this model.
- UTF-16 code units. A string's length is its number of characters.
- Clocks and durations. The timestamps and elapsed times a request sees are inputs, not computed.
- The catalogue SQL texts for table, column, key, index and constraint queries, and the SQLite `PRAGMA` texts. They are opaque calls on the database oracle. `getSqliteIndexColumnsQuery` is one of them.
- `getConfig`. It is only a raw lookup with a default, and no modelled tool uses it.
- JSON formatting of replies (indentation, key order): replies are structured values. The one serialisation failure modelled is a row cell holding a `bigint`, which makes `JSON.stringify` throw inside the handler's `try`; every other value is taken to serialise.
- Floating point. `Math.round` of the percentage is computed exactly, and non-integer JavaScript numbers are not modelled.
- Percent-encoding of URL parameters. `URLSearchParams` is modelled as text pairs.
- The `catch` branch of `classifySQL`. The modelled scanners cannot throw.
- `formatDate` and the `uuid` and `datetime` string formats. The formats are predicates supplied by the caller.
- React rendering, click handlers, modal state, the labels badge and the effort badge's number formatting.
- `{ ...filters, ...updates }` with a field explicitly set to `undefined`. The update type has only present fields.
- RoadmapModel.ParseItem: zod's non-enumeration checks on `linkedArtifacts` and `ideationContext` are not modelled.
- Security.GetConfigInt: the validated environment's schema (env.ts) is not part of this model. Its values are given as an input record.
- SqlParser.ClassifyIgnoresBlockComment: stated for a comment with no `-` and no closing delimiter inside, after text with no `-` or `/` that leads with a keyword. A `--` inside or before the comment is removed first and can swallow its closing delimiter, and a leading comment hides the keyword test on the raw text, so the comment does matter in those cases.
