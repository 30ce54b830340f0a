/**
 * The statement classifier of the MCP database server (`classifySQL` and the
 * gates derived from it).
 *
 * Classification works on two views of the input:
 *  - the RAW text, whose first keyword (after leading white space, any letter
 *    case, followed by white space) picks the statement type;
 *  - the CLEANED text (line comments, then block comments removed, trimmed,
 *    upper-cased), which must be non-empty and is scanned for a deny-list of
 *    administrative commands anywhere in it.
 *
 * Each regular expression of the source is written out as an explicit predicate
 * over positions; the comment removals are left-to-right scanners that mirror
 * a global `replace` (leftmost match, resume after it).
 */
module SqlParser {
  import opened Text
  import opened McpConstants

  /* ---------------------------------------------------------------------- */
  /* Comment removal                                                        */
  /* ---------------------------------------------------------------------- */

  /** Index of the first line terminator at or after `i`, or `|s|` when there is none. */
  function LineEnd(s: string, i: nat): (j: nat)
    requires i <= |s|
    ensures i <= j <= |s|
    ensures forall k | i <= k < j :: !IsLineBreak(s[k])
    ensures j < |s| ==> IsLineBreak(s[j])
    decreases |s| - i
  {
    if i == |s| || IsLineBreak(s[i]) then i else LineEnd(s, i + 1)
  }

  /**
   * `replace(/--.*$/gm, '')`: every `--` and the rest of its line disappear; the
   * line terminator itself stays.
   */
  function StripLineComments(s: string): (r: string)
    ensures |r| <= |s|
    decreases |s|
  {
    if |s| < 2 then s
    else if s[0] == '-' && s[1] == '-' then StripLineComments(s[LineEnd(s, 2)..])
    else [s[0]] + StripLineComments(s[1..])
  }

  /** Position of the first `*` `/` pair starting at or after `i`, if any. */
  function FindClose(s: string, i: nat): (r: Option<nat>)
    requires i <= |s|
    ensures r.Some? ==> i <= r.value && r.value + 2 <= |s| && s[r.value] == '*' && s[r.value + 1] == '/'
    ensures r.None? ==> forall k | i <= k < |s| - 1 :: !(s[k] == '*' && s[k + 1] == '/')
    decreases |s| - i
  {
    if i + 2 > |s| then None
    else if s[i] == '*' && s[i + 1] == '/' then Some(i)
    else FindClose(s, i + 1)
  }

  /**
   * `replace(/\/\*[\s\S]*?\*\//g, '')`: every block comment, up to the first
   * closing delimiter after its opening one, disappears. An opening delimiter
   * that is never closed is not a match, and neither is any later one, so the
   * rest of the text stays as it is.
   */
  function StripBlockComments(s: string): (r: string)
    ensures |r| <= |s|
    decreases |s|
  {
    if |s| < 2 then s
    else if s[0] == '/' && s[1] == '*' then
      match FindClose(s, 2)
      case Some(j) => StripBlockComments(s[j + 2..])
      case None => s
    else [s[0]] + StripBlockComments(s[1..])
  }

  /** The text the deny-list is scanned in: comments removed, trimmed, upper-cased. */
  function Clean(sql: string): string {
    Upper(Trim(StripBlockComments(StripLineComments(sql))))
  }

  /* ---------------------------------------------------------------------- */
  /* Keyword patterns                                                       */
  /* ---------------------------------------------------------------------- */

  /** `/^\s*KW\s/i` on the raw text, for an upper-case keyword `kw`. */
  predicate LeadingKeyword(sql: string, kw: string) {
    var t := TrimStart(sql);
    KeywordAt(t, 0, kw) && |kw| < |t| && IsSpace(t[|kw|])
  }

  /** `\s+.*\s+` matches exactly `s[a..b]`: white space, then one line of anything, then white space. */
  predicate SpacedGap(s: string, a: int, b: int)
    requires 0 <= a <= b <= |s|
  {
    exists m, n | a < m <= n < b :: AllSpace(s[a..m]) && NoLineBreak(s[m..n]) && AllSpace(s[n..b])
  }

  /** `/KW\s+.*\s+SELECT\s/i` somewhere in `c`. */
  predicate KeywordThenSelect(c: string, kw: string) {
    exists i, b | 0 <= i <= b && b + 6 < |c| ::
      i + |kw| <= b && KeywordAt(c, i, kw) && SpacedGap(c, i + |kw|, b) && KeywordAt(c, b, "SELECT") && IsSpace(c[b + 6])
  }

  /** `\s+KW\b` starting at `a`. */
  predicate SpacesThenWord(s: string, a: int, kw: string)
    requires 0 <= a <= |s|
  {
    exists j | a < j <= |s| - |kw| :: AllSpace(s[a..j]) && KeywordAt(s, j, kw) && WordEnd(s, j + |kw|)
  }

  /** The three shapes of the deny-list patterns. */
  datatype Danger =
    /** `\bVERB\s+(OBJ|OBJ|...)\b` */
    | VerbObject(verb: string, objects: seq<string>)
    /** `\bVERB\s+` */
    | VerbSpace(verb: string)
    /** `\bCOPY\s+.*\s+(FROM|TO)\s+PROGRAM\b` */
    | CopyProgram

  const DDL_OBJECTS: seq<string> :=
    ["TABLE", "DATABASE", "SCHEMA", "VIEW", "INDEX", "FUNCTION", "PROCEDURE", "TRIGGER", "ROLE", "USER"]

  /** The dangerous patterns, in the order the source tests them. */
  const DENY_LIST: seq<Danger> := [
    VerbObject("CREATE", DDL_OBJECTS),
    VerbObject("ALTER", DDL_OBJECTS),
    VerbObject("DROP", DDL_OBJECTS + ["CASCADE"]),
    VerbObject("TRUNCATE", ["TABLE"]),
    VerbSpace("GRANT"),
    VerbSpace("REVOKE"),
    CopyProgram,
    VerbSpace("EXECUTE"),
    VerbObject("SET", ["ROLE"]),
    VerbObject("RESET", ["ROLE"]),
    VerbObject("CREATE", ["EXTENSION"]),
    VerbObject("DROP", ["EXTENSION"])
  ]

  /** Pattern `d` matches `s` starting at position `i`. */
  predicate DangerAt(d: Danger, s: string, i: int)
    requires 0 <= i <= |s|
  {
    && WordStart(s, i)
    && match d
       case VerbObject(v, objs) =>
         KeywordAt(s, i, v) && exists o | o in objs :: SpacesThenWord(s, i + |v|, o)
       case VerbSpace(v) =>
         KeywordAt(s, i, v) && i + |v| < |s| && IsSpace(s[i + |v|])
       case CopyProgram =>
         && KeywordAt(s, i, "COPY")
         && exists b, kw | i + 4 <= b <= |s| && kw in ["FROM", "TO"] ::
              SpacedGap(s, i + 4, b) && KeywordAt(s, b, kw) && SpacesThenWord(s, b + |kw|, "PROGRAM")
  }

  /** Some deny-list pattern matches somewhere in the cleaned text. */
  predicate Forbidden(c: string) {
    exists k, i | 0 <= k < |DENY_LIST| && 0 <= i <= |c| :: DangerAt(DENY_LIST[k], c, i)
  }

  /* ---------------------------------------------------------------------- */
  /* Classification                                                         */
  /* ---------------------------------------------------------------------- */

  /** The keywords looked for on the raw text, in order; each selects the type of the same name. */
  const LEADING_KEYWORDS: seq<string> :=
    ["SELECT", "INSERT", "UPDATE", "DELETE", "CREATE", "ALTER", "DROP", "TRUNCATE", "GRANT", "REVOKE", "WITH", "EXPLAIN"]

  /**
   * The statement type: the first leading keyword that matches the raw text;
   * a leading WITH or EXPLAIN counts as SELECT only when the cleaned text has
   * that keyword, a gap and then SELECT followed by white space.
   */
  function LeadingType(sql: string, clean: string): StatementType {
    if LeadingKeyword(sql, "SELECT") then Select
    else if LeadingKeyword(sql, "INSERT") then Insert
    else if LeadingKeyword(sql, "UPDATE") then Update
    else if LeadingKeyword(sql, "DELETE") then Delete
    else if LeadingKeyword(sql, "CREATE") then Create
    else if LeadingKeyword(sql, "ALTER") then Alter
    else if LeadingKeyword(sql, "DROP") then Drop
    else if LeadingKeyword(sql, "TRUNCATE") then Truncate
    else if LeadingKeyword(sql, "GRANT") then Grant
    else if LeadingKeyword(sql, "REVOKE") then Revoke
    else if LeadingKeyword(sql, "WITH") then
      if KeywordThenSelect(clean, "WITH") then Select else Unknown
    else if LeadingKeyword(sql, "EXPLAIN") then
      if KeywordThenSelect(clean, "EXPLAIN") then Select else Unknown
    else Unknown
  }

  /** The object `classifySQL` returns; absent optional fields are `None`. */
  datatype ParseResult = ParseResult(
    valid: bool,
    statementType: Option<StatementType>,
    error: Option<ErrorKind>,
    isAllowedDml: Option<bool>,
    isAllowedDdl: Option<bool>)

  /** `classifySQL`. */
  function Classify(sql: string): (r: ParseResult)
    ensures r.valid <==> r.error.None?
    ensures r.error == Some(InvalidSql) <==> r.statementType.None?
    ensures r.valid ==> r.isAllowedDdl == Some(false) && r.isAllowedDml == Some(IsAllowedDml(r.statementType.value))
    ensures !r.valid ==> r.isAllowedDml.None? && r.isAllowedDdl.None?
    ensures r.error == Some(InvalidSql) <==> Clean(sql) == ""
    ensures r.error == Some(ForbiddenDdl) <==> Clean(sql) != "" && Forbidden(Clean(sql))
    ensures r.statementType.Some? ==> r.statementType.value == LeadingType(sql, Clean(sql))
  {
    var c := Clean(sql);
    if c == "" then
      ParseResult(false, None, Some(InvalidSql), None, None)
    else
      var t := LeadingType(sql, c);
      if Forbidden(c) then
        ParseResult(false, Some(t), Some(ForbiddenDdl), None, None)
      else
        ParseResult(true, Some(t), None, Some(IsAllowedDml(t)), Some(false))
  }

  /** `validateSQLSyntax`: the same classification. */
  function ValidateSqlSyntax(sql: string): (r: ParseResult)
    ensures r.valid ==> r.statementType.Some? && !Forbidden(Clean(sql))
  {
    Classify(sql)
  }

  /** `isSelectOnly`. */
  predicate IsSelectOnly(sql: string) {
    var r := Classify(sql);
    r.valid && r.statementType == Some(Select)
  }

  /** `isDMLOnly`. */
  predicate IsDmlOnly(sql: string) {
    var r := Classify(sql);
    r.valid && r.isAllowedDml == Some(true) && r.statementType != Some(Select)
  }

  /* ---------------------------------------------------------------------- */
  /* Facts about comment removal                                            */
  /* ---------------------------------------------------------------------- */

  lemma StripLineCons(c: char, s: string)
    requires c != '-'
    ensures StripLineComments([c] + s) == [c] + StripLineComments(s)
  {
    if |s| > 0 {
      assert ([c] + s)[1..] == s;
    }
  }

  /** A first character that does not open `--` is kept. */
  lemma StripLineKeepsFirst(t: string)
    requires t != "" && !(|t| >= 2 && t[0] == '-' && t[1] == '-')
    ensures StripLineComments(t) == [t[0]] + StripLineComments(t[1..])
  {
    if |t| == 1 {
      assert t == [t[0]] && t[1..] == "";
    }
  }

  lemma StripBlockCons(c: char, s: string)
    requires c != '/'
    ensures StripBlockComments([c] + s) == [c] + StripBlockComments(s)
  {
    if |s| > 0 {
      assert ([c] + s)[1..] == s;
    }
  }

  /** Text without a `-` in front of the rest passes the line-comment scanner unchanged. */
  lemma {:induction false} StripLinePrefix(p: string, s: string)
    requires '-' !in p
    ensures StripLineComments(p + s) == p + StripLineComments(s)
  {
    if |p| > 0 {
      assert p + s == [p[0]] + (p[1..] + s);
      StripLineCons(p[0], p[1..] + s);
      StripLinePrefix(p[1..], s);
    } else {
      assert p + s == s;
    }
  }

  /** Text without a `/` in front of the rest passes the block-comment scanner unchanged. */
  lemma {:induction false} StripBlockPrefix(p: string, s: string)
    requires '/' !in p
    ensures StripBlockComments(p + s) == p + StripBlockComments(s)
  {
    if |p| > 0 {
      assert p + s == [p[0]] + (p[1..] + s);
      StripBlockCons(p[0], p[1..] + s);
      StripBlockPrefix(p[1..], s);
    } else {
      assert p + s == s;
    }
  }

  lemma NoCommentsUnchanged(s: string)
    requires '-' !in s && '/' !in s
    ensures StripBlockComments(StripLineComments(s)) == s
  {
    StripLinePrefix(s, "");
    StripBlockPrefix(s, "");
    assert s + "" == s;
  }

  lemma {:induction false} LineEndUpper(s: string, i: nat)
    requires i <= |s|
    ensures LineEnd(Upper(s), i) == LineEnd(s, i)
    decreases |s| - i
  {
    if i < |s| {
      UpperCharKeepsClasses(s[i]);
      LineEndUpper(s, i + 1);
    }
  }

  lemma {:induction false} FindCloseUpper(s: string, i: nat)
    requires i <= |s|
    ensures FindClose(Upper(s), i) == FindClose(s, i)
    decreases |s| - i
  {
    if i + 2 <= |s| {
      UpperCharKeepsClasses(s[i]);
      UpperCharKeepsClasses(s[i + 1]);
      FindCloseUpper(s, i + 1);
    }
  }

  lemma {:induction false} StripLineUpper(s: string)
    ensures StripLineComments(Upper(s)) == Upper(StripLineComments(s))
    decreases |s|
  {
    if |s| >= 2 {
      var u := Upper(s);
      UpperCharKeepsClasses(s[0]);
      UpperCharKeepsClasses(s[1]);
      if s[0] == '-' && s[1] == '-' {
        LineEndUpper(s, 2);
        var j := LineEnd(s, 2);
        assert u[j..] == Upper(s[j..]);
        StripLineUpper(s[j..]);
      } else {
        assert u[1..] == Upper(s[1..]);
        StripLineUpper(s[1..]);
        UpperAppend([s[0]], StripLineComments(s[1..]));
      }
    }
  }

  lemma {:induction false} StripBlockUpper(s: string)
    ensures StripBlockComments(Upper(s)) == Upper(StripBlockComments(s))
    decreases |s|
  {
    if |s| >= 2 {
      var u := Upper(s);
      UpperCharKeepsClasses(s[0]);
      UpperCharKeepsClasses(s[1]);
      if s[0] == '/' && s[1] == '*' {
        FindCloseUpper(s, 2);
        match FindClose(s, 2)
        case Some(j) =>
          assert u[j + 2..] == Upper(s[j + 2..]);
          StripBlockUpper(s[j + 2..]);
        case None =>
      } else {
        assert u[1..] == Upper(s[1..]);
        StripBlockUpper(s[1..]);
        UpperAppend([s[0]], StripBlockComments(s[1..]));
      }
    }
  }

  lemma CleanUpper(sql: string)
    ensures Clean(Upper(sql)) == Clean(sql)
  {
    StripLineUpper(sql);
    StripBlockUpper(StripLineComments(sql));
    var b := StripBlockComments(StripLineComments(sql));
    UpperTrim(b);
    UpperIdempotent(Trim(b));
  }

  lemma LeadingKeywordUpper(sql: string, kw: string)
    ensures LeadingKeyword(Upper(sql), kw) == LeadingKeyword(sql, kw)
  {
    var t := TrimStart(sql);
    UpperTrim(sql);
    assert TrimStart(Upper(sql)) == Upper(t);
    if |kw| <= |t| {
      UpperSlice(t, 0, |kw|);
      UpperIdempotent(t[..|kw|]);
    }
    if |kw| < |t| {
      UpperCharKeepsClasses(t[|kw|]);
    }
  }

  /** Two texts that agree on every leading-keyword test get the same statement type. */
  lemma LeadingTypeSame(a: string, b: string, clean: string)
    requires forall kw | IsKeyword(kw) :: LeadingKeyword(a, kw) == LeadingKeyword(b, kw)
    ensures LeadingType(a, clean) == LeadingType(b, clean)
  {
    LeadingKeywordsAreKeywords();
    var kws := ["SELECT", "INSERT", "UPDATE", "DELETE", "CREATE", "ALTER",
                "DROP", "TRUNCATE", "GRANT", "REVOKE", "WITH", "EXPLAIN"];
    forall k | 0 <= k < |kws| ensures LeadingKeyword(a, kws[k]) == LeadingKeyword(b, kws[k]) {
      assert IsKeyword(kws[k]);
    }
    assert kws[0] == "SELECT" && kws[1] == "INSERT" && kws[2] == "UPDATE" && kws[3] == "DELETE";
    assert kws[4] == "CREATE" && kws[5] == "ALTER" && kws[6] == "DROP" && kws[7] == "TRUNCATE";
    assert kws[8] == "GRANT" && kws[9] == "REVOKE" && kws[10] == "WITH" && kws[11] == "EXPLAIN";
  }

  /** Two texts with the same cleaned form and the same leading keyword are classified alike. */
  lemma ClassifySame(a: string, b: string)
    requires Clean(a) == Clean(b)
    requires forall kw | IsKeyword(kw) :: LeadingKeyword(a, kw) == LeadingKeyword(b, kw)
    ensures Classify(a) == Classify(b)
  {
    LeadingTypeSame(a, b, Clean(a));
  }

  /** The classification ignores letter case (of ASCII letters). */
  lemma ClassifyIgnoresCase(sql: string)
    ensures Classify(Upper(sql)) == Classify(sql)
  {
    CleanUpper(sql);
    forall kw ensures LeadingKeyword(Upper(sql), kw) == LeadingKeyword(sql, kw) {
      LeadingKeywordUpper(sql, kw);
    }
    ClassifySame(Upper(sql), sql);
  }

  lemma AllSpaceNoDash(w: string)
    requires AllSpace(w)
    ensures '-' !in w && '/' !in w
  {
    assert forall k | 0 <= k < |w| :: w[k] != '-' && w[k] != '/';
  }

  /** White space in front of a statement changes nothing. */
  lemma ClassifyIgnoresLeadingSpace(w: string, sql: string)
    requires AllSpace(w)
    ensures Classify(w + sql) == Classify(sql)
  {
    AllSpaceNoDash(w);
    StripLinePrefix(w, sql);
    StripBlockPrefix(w, StripLineComments(sql));
    TrimSkipsSpace(w, StripBlockComments(StripLineComments(sql)));
    TrimStartSkipsSpace(w, sql);
    assert Clean(w + sql) == Clean(sql);
    ClassifySame(w + sql, sql);
  }

  /* ---------------------------------------------------------------------- */
  /* The statement type                                                     */
  /* ---------------------------------------------------------------------- */

  /** A non-empty word of upper-case letters. */
  predicate IsKeyword(kw: string) {
    |kw| > 0 && forall k | 0 <= k < |kw| :: 'A' <= kw[k] <= 'Z'
  }

  lemma LeadingKeywordsAreKeywords()
    ensures IsKeyword("SELECT") && IsKeyword("INSERT") && IsKeyword("UPDATE") && IsKeyword("DELETE")
    ensures IsKeyword("CREATE") && IsKeyword("ALTER") && IsKeyword("DROP") && IsKeyword("TRUNCATE")
    ensures IsKeyword("GRANT") && IsKeyword("REVOKE") && IsKeyword("WITH") && IsKeyword("EXPLAIN")
  {
  }

  lemma KeywordAtLetter(t: string, i: nat, kw: string, k: nat)
    requires IsKeyword(kw) && KeywordAt(t, i, kw) && k < |kw|
    ensures IsAsciiLetter(t[i + k]) && UpperChar(t[i + k]) == kw[k]
  {
    assert Upper(t[i..i + |kw|])[k] == UpperChar(t[i + k]);
  }

  /** At most one keyword can lead a statement: a longer one would need a letter where the shorter one needs white space. */
  lemma LeadingKeywordsExclusive(sql: string, k1: string, k2: string)
    requires IsKeyword(k1) && IsKeyword(k2)
    requires LeadingKeyword(sql, k1) && LeadingKeyword(sql, k2)
    ensures k1 == k2
  {
    var t := TrimStart(sql);
    SpaceBlocksLonger(t, k1, k2);
    SpaceBlocksLonger(t, k2, k1);
    assert k1 == Upper(t[..|k1|]) == k2;
  }

  /** A keyword cannot match across a position that holds a non-letter. */
  lemma NoKeywordAtNonLetter(t: string, i: int, kw: string, k: int)
    requires IsKeyword(kw) && 0 <= k < |kw| && 0 <= i && i + k < |t| && !IsAsciiLetter(t[i + k])
    ensures !KeywordAt(t, i, kw)
  {
    if i + |kw| <= |t| {
      assert Upper(t[i..i + |kw|])[k] == UpperChar(t[i + k]);
    }
  }

  /** White space right after a shorter keyword rules out any longer keyword at the same place. */
  lemma SpaceBlocksLonger(t: string, k1: string, k2: string)
    requires IsKeyword(k2) && |k1| < |t| && IsSpace(t[|k1|])
    ensures |k1| < |k2| ==> !KeywordAt(t, 0, k2)
  {
    if |k1| < |k2| {
      NoKeywordAtNonLetter(t, 0, k2, |k1|);
    }
  }

  lemma OnlyOneLeads(sql: string, n: string)
    requires IsKeyword(n) && LeadingKeyword(sql, n)
    ensures forall kw | IsKeyword(kw) && kw != n :: !LeadingKeyword(sql, kw)
  {
    forall kw | IsKeyword(kw) && kw != n
      ensures !LeadingKeyword(sql, kw)
    {
      LeadingKeywordUnique(sql, kw, n);
    }
  }

  lemma LeadingKeywordUnique(sql: string, k1: string, k2: string)
    requires IsKeyword(k1) && IsKeyword(k2)
    ensures LeadingKeyword(sql, k1) && LeadingKeyword(sql, k2) ==> k1 == k2
  {
    if LeadingKeyword(sql, k1) && LeadingKeyword(sql, k2) {
      LeadingKeywordsExclusive(sql, k1, k2);
    }
  }

  /** Whichever of the ten statement keywords leads the raw text decides the type. */
  lemma LeadingTypeOfKeyword(sql: string, clean: string, t: StatementType)
    requires t != Unknown && LeadingKeyword(sql, t.Name())
    ensures LeadingType(sql, clean) == t
  {
    if t in {Select, Insert, Update, Delete, Create} {
      LeadingTypeOfEarlyKeyword(sql, clean, t);
    } else {
      LeadingTypeOfLateKeyword(sql, clean, t);
    }
  }

  lemma LeadingTypeOfEarlyKeyword(sql: string, clean: string, t: StatementType)
    requires t in {Select, Insert, Update, Delete, Create} && LeadingKeyword(sql, t.Name())
    ensures LeadingType(sql, clean) == t
  {
    LeadingKeywordsAreKeywords();
    match t
    case Select =>
    case Insert => OnlyOneLeads(sql, "INSERT");
    case Update => OnlyOneLeads(sql, "UPDATE");
    case Delete => OnlyOneLeads(sql, "DELETE");
    case Create => OnlyOneLeads(sql, "CREATE");
  }

  lemma LeadingTypeOfLateKeyword(sql: string, clean: string, t: StatementType)
    requires t in {Alter, Drop, Truncate, Grant, Revoke} && LeadingKeyword(sql, t.Name())
    ensures LeadingType(sql, clean) == t
  {
    LeadingKeywordsAreKeywords();
    match t
    case Alter => OnlyOneLeads(sql, "ALTER");
    case Drop => OnlyOneLeads(sql, "DROP");
    case Truncate => OnlyOneLeads(sql, "TRUNCATE");
    case Grant => OnlyOneLeads(sql, "GRANT");
    case Revoke => OnlyOneLeads(sql, "REVOKE");
  }

  /** A statement whose first visible character is not a letter (a comment, a parenthesis) has type UNKNOWN. */
  lemma NonLetterStartIsUnknown(sql: string, clean: string)
    requires TrimStart(sql) == "" || !IsAsciiLetter(TrimStart(sql)[0])
    ensures LeadingType(sql, clean) == Unknown
  {
    LeadingKeywordsAreKeywords();
    forall kw | IsKeyword(kw)
      ensures !LeadingKeyword(sql, kw)
    {
      if TrimStart(sql) != "" {
        NoKeywordAtNonLetter(TrimStart(sql), 0, kw, 0);
      }
    }
  }

  /** A line comment in front of a statement is removed together with its text, up to the line break. */
  lemma LineCommentFirstCleans(c: string, x: string)
    requires NoLineBreak(c)
    ensures Clean("--" + c + "\n" + x) == Clean(x)
  {
    LineCommentFirstStrips(c, x);
    StripLinePrefix("\n", x);
    var y := StripLineComments(x);
    StripBlockPrefix("\n", y);
    TrimSkipsSpace("\n", StripBlockComments(y));
  }

  /** The line-comment scanner drops a leading comment up to its line break. */
  lemma LineCommentFirstStrips(c: string, x: string)
    requires NoLineBreak(c)
    ensures StripLineComments("--" + c + "\n" + x) == StripLineComments("\n" + x)
  {
    var s := "--" + c + "\n" + x;
    assert s[0] == '-' && s[1] == '-';
    assert s[2 + |c|] == '\n';
    forall k | 2 <= k < 2 + |c| ensures !IsLineBreak(s[k]) {
      assert s[k] == c[k - 2];
    }
    LineEndUnique(s, 2, 2 + |c|);
    assert s[2 + |c|..] == "\n" + x;
  }

  /** The end of the line is the first line break at or after `i`. */
  lemma {:induction false} LineEndUnique(s: string, i: nat, j: nat)
    requires i <= j < |s| && IsLineBreak(s[j])
    requires forall k | i <= k < j :: !IsLineBreak(s[k])
    ensures LineEnd(s, i) == j
    decreases j - i
  {
    if i < j {
      LineEndUnique(s, i + 1, j);
    }
  }

  /**
   * A statement that opens with a line comment is still scanned, but its type
   * is UNKNOWN: the keyword test looks at the raw text, where `-` comes first.
   */
  lemma LineCommentFirstIsUnknown(c: string, x: string)
    requires NoLineBreak(c)
    ensures Classify("--" + c + "\n" + x).statementType == if Clean(x) == "" then None else Some(Unknown)
  {
    var s := "--" + c + "\n" + x;
    LineCommentFirstCleans(c, x);
    assert TrimStart(s) == s;
    NonLetterStartIsUnknown(s, Clean(x));
  }

  /** A keyword glued to what follows (`SELECT*FROM t`) is not a leading keyword, so the type is UNKNOWN. */
  lemma GluedSelectIsUnknown(x: string, clean: string)
    requires x != "" && !IsSpace(x[0])
    ensures LeadingType("SELECT" + x, clean) == Unknown
  {
    var s := "SELECT" + x;
    assert s[0] == 'S' && !IsSpace(s[0]);
    assert TrimStart(s) == s;
    LeadingKeywordsAreKeywords();
    forall kw | IsKeyword(kw) && kw[0] != 'S'
      ensures !LeadingKeyword(s, kw)
    {
      FirstLetterBlocks(s, kw);
    }
    assert s[6] == x[0];
  }

  /** A keyword cannot match where the text's first letter differs from the keyword's. */
  lemma FirstLetterBlocks(t: string, kw: string)
    requires IsKeyword(kw) && |t| > 0 && UpperChar(t[0]) != kw[0]
    ensures !KeywordAt(t, 0, kw)
  {
    if |kw| <= |t| {
      assert Upper(t[..|kw|])[0] == UpperChar(t[0]);
    }
  }

  /* ---------------------------------------------------------------------- */
  /* Comments and the deny-list                                             */
  /* ---------------------------------------------------------------------- */

  lemma {:induction false} LineEndNoBreakTail(p: string, x: string, i: nat)
    requires i <= |p| && NoLineBreak(x)
    ensures LineEnd(p + x, i) == if LineEnd(p, i) < |p| then LineEnd(p, i) else |p + x|
    decreases |p| - i
  {
    var s := p + x;
    if i < |p| {
      assert s[i] == p[i];
      if !IsLineBreak(p[i]) {
        LineEndNoBreakTail(p, x, i + 1);
      }
    } else {
    }
  }

  /** A line comment that runs to the end of the text removes everything after it. */
  lemma {:induction false} StripLineCommentTail(p: string, c: string)
    requires NoLineBreak(c)
    requires p == "" || p[|p| - 1] != '-'
    ensures StripLineComments(p + ("--" + c)) == StripLineComments(p)
    decreases |p|
  {
    var x := "--" + c;
    DashesNoBreak(c);
    if |p| == 0 {
      CommentOnlyStrips(x);
    } else if p[0] == '-' && (p + x)[1] == '-' {
      assert |p| >= 2;
      var j := LineEnd(p, 2);
      LineEndNoBreakTail(p, x, 2);
      if j < |p| {
        StripLineCommentTail(p[j..], c);
        CommentInsideStep(p, x);
      } else {
        CommentEndStep(p, x);
      }
    } else {
      assert |p| >= 2 ==> (p + x)[1] == p[1];
      StripLineCommentTail(p[1..], c);
      PlainCharStep(p, x);
    }
  }

  lemma DashesNoBreak(c: string)
    requires NoLineBreak(c)
    ensures NoLineBreak("--" + c)
  {
    var x := "--" + c;
    forall k | 0 <= k < |x| ensures !IsLineBreak(x[k]) {
      if k >= 2 {
        assert x[k] == c[k - 2];
      }
    }
  }

  /** A comment running to the end of the text leaves nothing. */
  lemma CommentOnlyStrips(x: string)
    requires |x| >= 2 && x[0] == '-' && x[1] == '-' && NoLineBreak(x)
    ensures StripLineComments("" + x) == StripLineComments("")
  {
    assert "" + x == x;
    LineEndNoBreakTail("", x, 0);
    assert x[LineEnd(x, 2)..] == "";
  }

  /** A comment that ends inside `p` ends at the same place in `p + x`. */
  lemma CommentInsideStep(p: string, x: string)
    requires |p| >= 2 && p[0] == '-' && p[1] == '-' && LineEnd(p, 2) < |p|
    requires LineEnd(p + x, 2) == LineEnd(p, 2)
    requires StripLineComments(p[LineEnd(p, 2)..] + x) == StripLineComments(p[LineEnd(p, 2)..])
    ensures StripLineComments(p + x) == StripLineComments(p)
  {
    var s := p + x;
    var j := LineEnd(p, 2);
    assert s[0] == '-' && s[1] == '-';
    CommentSkips(s);
    CommentSkips(p);
    assert s[j..] == p[j..] + x;
  }

  /** A comment that runs to the end of `p` runs on through `x`. */
  lemma CommentEndStep(p: string, x: string)
    requires |p| >= 2 && p[0] == '-' && p[1] == '-' && LineEnd(p, 2) == |p|
    requires LineEnd(p + x, 2) == |p + x|
    ensures StripLineComments(p + x) == StripLineComments(p)
  {
    var s := p + x;
    assert s[0] == '-' && s[1] == '-';
    CommentSkips(s);
    CommentSkips(p);
    assert s[|s|..] == p[|p|..];
  }

  lemma CommentSkips(t: string)
    requires |t| >= 2 && t[0] == '-' && t[1] == '-'
    ensures StripLineComments(t) == StripLineComments(t[LineEnd(t, 2)..])
  {
  }

  /** A first character that does not open a comment is kept on both sides. */
  lemma PlainCharStep(p: string, x: string)
    requires p != "" && (p[0] == '-' ==> |p| >= 2 && p[1] != '-')
    requires StripLineComments(p[1..] + x) == StripLineComments(p[1..])
    ensures StripLineComments(p + x) == StripLineComments(p)
  {
    var s := p + x;
    assert s[0] == p[0];
    assert |p| >= 2 ==> s[1] == p[1];
    calc {
      StripLineComments(s);
      { StripLineKeepsFirst(s); }
      [p[0]] + StripLineComments(s[1..]);
      { assert s[1..] == p[1..] + x; }
      [p[0]] + StripLineComments(p[1..] + x);
      [p[0]] + StripLineComments(p[1..]);
      { StripLineKeepsFirst(p); }
      StripLineComments(p);
    }
  }

  /** Text that starts with `-` cannot complete a leading keyword, so appending it changes no leading-keyword test. */
  lemma LeadingKeywordDashTail(p: string, x: string, kw: string)
    requires IsKeyword(kw) && x != "" && x[0] == '-'
    ensures LeadingKeyword(p + x, kw) == LeadingKeyword(p, kw)
  {
    var t := TrimStart(p);
    if t == "" {
      TrimStartEmptyAppend(p, x);
      assert TrimStart(x) == x;
      NoKeywordAtNonLetter(x, 0, kw, 0);
    } else {
      TrimStartAppend(p, x);
      var u := t + x;
      if |kw| < |t| {
        assert u[..|kw|] == t[..|kw|];
        assert u[|kw|] == t[|kw|];
      } else if |kw| > |t| {
        assert u[|t|] == '-';
        NoKeywordAtNonLetter(u, 0, kw, |t|);
      } else {
        assert u[|kw|] == '-';
      }
    }
  }

  /** Whatever follows `--` on the last line (a commented-out `DROP TABLE`, say) has no effect on the classification. */
  lemma ClassifyIgnoresCommentedTail(p: string, c: string)
    requires NoLineBreak(c)
    requires p == "" || p[|p| - 1] != '-'
    ensures Classify(p + "--" + c) == Classify(p)
  {
    var x := "--" + c;
    assert p + "--" + c == p + x;
    StripLineCommentTail(p, c);
    forall kw | IsKeyword(kw)
      ensures LeadingKeyword(p + x, kw) == LeadingKeyword(p, kw)
    {
      LeadingKeywordDashTail(p, x, kw);
    }
    ClassifySame(p + x, p);
  }

  /** No closing `*` `/` pair inside `c`. */
  predicate NoCloser(c: string) {
    forall k | 0 <= k < |c| - 1 :: !(c[k] == '*' && c[k + 1] == '/')
  }

  /** The search for a closing delimiter stops at the first one. */
  lemma {:induction false} FindCloseFirst(s: string, i: nat, j: nat)
    requires i <= j && j + 2 <= |s| && s[j] == '*' && s[j + 1] == '/'
    requires forall k | i <= k < j :: !(s[k] == '*' && s[k + 1] == '/')
    ensures FindClose(s, i) == Some(j)
    decreases j - i
  {
    if i < j {
      FindCloseFirst(s, i + 1, j);
    }
  }

  /** A block comment at the front disappears completely, up to its first closing delimiter. */
  lemma BlockCommentVanishes(c: string, y: string)
    requires NoCloser(c)
    ensures StripBlockComments("/*" + c + "*/" + y) == StripBlockComments(y)
  {
    var s := "/*" + c + "*/" + y;
    var j := 2 + |c|;
    forall k | 2 <= k < j
      ensures !(s[k] == '*' && s[k + 1] == '/')
    {
      if k + 1 < j {
        assert s[k] == c[k - 2] && s[k + 1] == c[k - 1];
      } else {
        assert s[k + 1] == '*';
      }
    }
    assert s[j] == '*' && s[j + 1] == '/';
    FindCloseFirst(s, 2, j);
    assert s[j + 2..] == y;
  }

  /** A block comment after comment-free text is removed without a trace: the text around it is joined directly. */
  lemma CleanIgnoresBlockComment(p: string, c: string, q: string)
    requires '-' !in p && '/' !in p && '-' !in c && NoCloser(c)
    ensures Clean(p + "/*" + c + "*/" + q) == Clean(p + q)
  {
    var b := "/*" + c + "*/";
    assert p + "/*" + c + "*/" + q == (p + b) + q;
    assert '-' !in p + b;
    StripLinePrefix(p + b, q);
    StripLinePrefix(p, q);
    var y := StripLineComments(q);
    assert (p + b) + y == p + ("/*" + c + "*/" + y);
    StripBlockPrefix(p, "/*" + c + "*/" + y);
    StripBlockPrefix(p, y);
    BlockCommentVanishes(c, y);
  }

  /** Text that already leads with a keyword keeps it whatever is appended. */
  lemma LeadingKeywordExtends(p: string, x: string, kw: string)
    requires LeadingKeyword(p, kw)
    ensures LeadingKeyword(p + x, kw)
  {
    var t := TrimStart(p);
    TrimStartAppend(p, x);
    var u := t + x;
    assert u[..|kw|] == t[..|kw|];
    assert u[|kw|] == t[|kw|];
  }

  /**
   * A block comment (a commented-out `DROP TABLE`, say) after the leading
   * keyword has no effect on the classification: the statement is classified
   * as if the comment had never been written.
   */
  lemma ClassifyIgnoresBlockComment(p: string, c: string, q: string, kw: string)
    requires IsKeyword(kw) && LeadingKeyword(p, kw)
    requires '-' !in p && '/' !in p && '-' !in c && NoCloser(c)
    ensures Classify(p + "/*" + c + "*/" + q) == Classify(p + q)
  {
    var x := "/*" + c + "*/" + q;
    var a := p + "/*" + c + "*/" + q;
    assert a == p + x;
    CleanIgnoresBlockComment(p, c, q);
    LeadingKeywordExtends(p, x, kw);
    LeadingKeywordExtends(p, q, kw);
    forall k | IsKeyword(k)
      ensures LeadingKeyword(a, k) == LeadingKeyword(p + q, k)
    {
      LeadingKeywordUnique(a, k, kw);
      LeadingKeywordUnique(p + q, k, kw);
    }
    ClassifySame(a, p + q);
  }

  /** The keyword every match of pattern `d` starts with. */
  function Verb(d: Danger): string {
    match d
    case VerbObject(v, _) => v
    case VerbSpace(v) => v
    case CopyProgram => "COPY"
  }

  lemma NoVerbNoDanger(d: Danger, s: string, i: int)
    requires 0 <= i <= |s| && !(WordStart(s, i) && KeywordAt(s, i, Verb(d)))
    ensures !DangerAt(d, s, i)
  {
  }

  /** One mismatching letter rules a keyword out. */
  lemma KeywordAtMismatch(t: string, i: nat, kw: string, k: nat)
    requires i + |kw| <= |t| && k < |kw| && UpperChar(t[i + k]) != kw[k]
    ensures !KeywordAt(t, i, kw)
  {
    assert Upper(t[i..i + |kw|])[k] == UpperChar(t[i + k]);
  }

  /** The keywords the deny-list patterns start with. */
  lemma DenyListVerbs(k: nat)
    requires k < |DENY_LIST|
    ensures Verb(DENY_LIST[k]) in ["CREATE", "ALTER", "DROP", "TRUNCATE", "GRANT", "REVOKE", "COPY", "EXECUTE", "SET", "RESET"]
  {
  }

  /** `SELECT 1` matches no deny-list pattern. */
  lemma SelectOneNotForbidden()
    ensures !Forbidden("SELECT 1")
  {
    forall k, i | 0 <= k < |DENY_LIST| && 0 <= i <= |"SELECT 1"|
      ensures !DangerAt(DENY_LIST[k], "SELECT 1", i)
    {
      DenyListVerbs(k);
      SelectOneLacksVerb(Verb(DENY_LIST[k]), i);
      NoVerbNoDanger(DENY_LIST[k], "SELECT 1", i);
    }
  }

  /** In `SELECT 1` no deny-list keyword starts a word: only `S` and `1` do, and `SEL` is not `SET`. */
  lemma SelectOneLacksVerb(v: string, i: nat)
    requires v in ["CREATE", "ALTER", "DROP", "TRUNCATE", "GRANT", "REVOKE", "COPY", "EXECUTE", "SET", "RESET"]
    requires i <= |"SELECT 1"|
    ensures !(WordStart("SELECT 1", i) && KeywordAt("SELECT 1", i, v))
  {
    var s := "SELECT 1";
    if i == 0 {
      KeywordAtMismatch(s, 0, v, if v == "SET" then 2 else 0);
    } else if i < 7 {
      assert IsWordChar(s[i - 1]);
    } else if i == 8 {
      assert IsWordChar(s[7]);
    }
  }

  lemma SelectOneLeads()
    ensures LeadingKeyword("SELECT 1 ", "SELECT")
  {
    var p := "SELECT 1 ";
    assert !IsSpace(p[0]);
    assert LeadingSpaces(p) == 0;
    assert TrimStart(p) == p;
    assert p[0..6] == "SELECT";
    UpperLiteral();
    assert IsSpace(p[6]);
  }

  lemma SelectOneCleaned(p: string)
    requires p == "SELECT 1 "
    ensures Clean(p) == "SELECT 1"
  {
    CleanOfPlainText(p);
    SelectOneTrimmed(p);
    SelectOneUpper(Trim(p));
  }

  lemma SelectOneTrimmed(p: string)
    requires p == "SELECT 1 "
    ensures Trim(p) == "SELECT 1"
  {
    var t := "SELECT 1";
    assert p == t + " ";
    TrimTrailingSpace(t);
  }

  lemma SelectOneUpper(t: string)
    requires t == "SELECT 1"
    ensures Upper(t) == t
  {
  }

  /** `SELECT 1 /* DROP TABLE t */` is a valid SELECT: the commented-out `DROP TABLE` is never scanned. */
  lemma CommentedDropTableAllowed(sql: string)
    requires sql == "SELECT 1 /* DROP TABLE t */"
    ensures Classify(sql).valid && Classify(sql).statementType == Some(Select)
  {
    var p, c := "SELECT 1 ", " DROP TABLE t ";
    CommentedDropTableSplits(sql, p, c);
    SelectOneLeads();
    LeadingKeywordsAreKeywords();
    ClassifyIgnoresBlockComment(p, c, "", "SELECT");
    SelectOneAdmitted(p);
  }

  lemma CommentedDropTableSplits(sql: string, p: string, c: string)
    requires sql == "SELECT 1 /* DROP TABLE t */" && p == "SELECT 1 " && c == " DROP TABLE t "
    ensures sql == p + "/*" + c + "*/" + "" && p + "" == p
    ensures '-' !in p && '/' !in p && '-' !in c && NoCloser(c)
  {
  }

  lemma SelectOneAdmitted(p: string)
    requires p == "SELECT 1 "
    ensures IsSelectOnly(p)
  {
    SelectOneLeads();
    SelectOneCleaned(p);
    SelectOneNotForbidden();
    PlainSelectIsSelectOnly(p);
  }

  lemma CleanOfPlainText(s: string)
    requires '-' !in s && '/' !in s
    ensures Clean(s) == Upper(Trim(s))
  {
    NoCommentsUnchanged(s);
  }

  lemma UpperLiteral()
    ensures Upper("DROP") == "DROP" && Upper("TABLE") == "TABLE" && Upper("GRANT") == "GRANT"
    ensures Upper("SELECT") == "SELECT" && Upper("DROP TABLE") == "DROP TABLE"
  {
  }

  /** `DROP TABLE` standing as whole words at `i` matches the third deny-list pattern. */
  lemma DropTableAt(c: string, i: nat)
    requires i + 10 <= |c| && c[i..i + 10] == "DROP TABLE"
    requires WordStart(c, i) && WordEnd(c, i + 10)
    ensures Forbidden(c)
  {
    DropTableWords(c, i);
    assert DENY_LIST[2] == VerbObject("DROP", DDL_OBJECTS + ["CASCADE"]);
    assert "TABLE" in DDL_OBJECTS + ["CASCADE"];
    assert DangerAt(DENY_LIST[2], c, i);
  }

  lemma DropTableWords(c: string, i: nat)
    requires i + 10 <= |c| && c[i..i + 10] == "DROP TABLE"
    requires WordEnd(c, i + 10)
    ensures KeywordAt(c, i, "DROP") && SpacesThenWord(c, i + 4, "TABLE")
  {
    var w := c[i..i + 10];
    assert c[i..i + 4] == w[..4] == "DROP";
    assert c[i + 5..i + 10] == w[5..] == "TABLE";
    assert w[4] == ' ';
    assert c[i + 4] == ' ';
    assert AllSpace(c[i + 4..i + 5]) by {
      assert c[i + 4..i + 5][0] == c[i + 4];
    }
    UpperLiteral();
    assert KeywordAt(c, i, "DROP");
    assert KeywordAt(c, i + 5, "TABLE");
  }

  /** A whole-word `DROP TABLE` in comment-free text is still there, upper-cased, after cleaning. */
  lemma DropTableSurvivesCleaning(s: string, lo: nat)
    requires '-' !in s && '/' !in s
    requires lo + 10 <= |s| && s[lo..lo + 10] == "DROP TABLE"
    requires WordStart(s, lo) && WordEnd(s, lo + 10)
    ensures Forbidden(Clean(s))
  {
    var d := "DROP TABLE";
    UpperLiteral();
    var t := Trim(s);
    var i := TrimmedWord(s, lo, d, t);
    UpperWord(t, i, d);
    DropTableAt(Upper(t), i);
    CleanOfPlainText(s);
  }

  lemma PlainAround(p: string, d: string, q: string)
    requires '-' !in p && '/' !in p && '-' !in q && '/' !in q && '-' !in d && '/' !in d
    ensures '-' !in p + d + q && '/' !in p + d + q
  {
  }

  /**
   * `DROP TABLE` outside a comment is rejected wherever it stands, even inside
   * a string literal: the deny-list scan knows nothing of quoting.
   */
  lemma DropTableIsForbidden(p: string, q: string)
    requires '-' !in p && '/' !in p && '-' !in q && '/' !in q
    requires p == "" || !IsWordChar(p[|p| - 1])
    requires q == "" || !IsWordChar(q[0])
    ensures Classify(p + "DROP TABLE" + q).error == Some(ForbiddenDdl)
  {
    var d := "DROP TABLE";
    var s := p + d + q;
    PlainAround(p, d, q);
    assert s[|p|..|p| + 10] == d;
    if |p| > 0 {
      assert s[|p| - 1] == p[|p| - 1];
    }
    if |p| + 10 < |s| {
      assert s[|p| + 10] == q[0];
    }
    DropTableSurvivesCleaning(s, |p|);
  }

  /* ---------------------------------------------------------------------- */
  /* The gates                                                              */
  /* ---------------------------------------------------------------------- */

  /** A statement with a leading keyword has visible text left after comment removal. */
  lemma LeadingKeywordCleanNonEmpty(sql: string, kw: string)
    requires IsKeyword(kw) && LeadingKeyword(sql, kw)
    ensures Clean(sql) != ""
  {
    var n := LeadingSpaces(sql);
    var w := sql[..n];
    var t := TrimStart(sql);
    assert sql == w + t;
    KeywordAtLetter(t, 0, kw, 0);
    assert sql == w + [t[0]] + t[1..];
    VisibleCharSurvives(w, t[0], t[1..]);
  }

  /** A visible character after white space is still there once comments are removed and the text trimmed. */
  lemma VisibleCharSurvives(w: string, c: char, rest: string)
    requires AllSpace(w) && IsAsciiLetter(c)
    ensures Trim(StripBlockComments(StripLineComments(w + [c] + rest))) != ""
  {
    AllSpaceNoDash(w);
    var h := w + [c];
    assert '-' !in h && '/' !in h;
    StripLinePrefix(h, rest);
    var y := StripLineComments(rest);
    assert StripLineComments(h + rest) == h + y;
    StripBlockPrefix(h, y);
    var z := h + StripBlockComments(y);
    assert StripBlockComments(h + y) == z;
    assert z[|w|] == c;
    LetterKeepsTrim(z, |w|);
  }

  /** A string with an ASCII letter in it does not trim to nothing. */
  lemma LetterKeepsTrim(z: string, i: nat)
    requires i < |z| && IsAsciiLetter(z[i])
    ensures Trim(z) != ""
  {
    if Trim(z) == "" {
      TrimEmptyAllSpace(z);
    }
  }

  /**
   * What the SELECT gate admits: a statement free of every deny-list pattern
   * that leads with SELECT, or with WITH or EXPLAIN and has `SELECT` after a
   * gap in its cleaned text. Nothing else about the statement is inspected.
   */
  lemma SelectOnlyMeans(sql: string)
    ensures IsSelectOnly(sql) <==>
      && !Forbidden(Clean(sql))
      && (|| LeadingKeyword(sql, "SELECT")
          || (LeadingKeyword(sql, "WITH") && KeywordThenSelect(Clean(sql), "WITH"))
          || (LeadingKeyword(sql, "EXPLAIN") && KeywordThenSelect(Clean(sql), "EXPLAIN")))
  {
    LeadingKeywordsAreKeywords();
    var c := Clean(sql);
    LeadingSelectMeans(sql, c);
    if LeadingKeyword(sql, "SELECT") {
      LeadingKeywordCleanNonEmpty(sql, "SELECT");
    } else if LeadingKeyword(sql, "WITH") {
      LeadingKeywordCleanNonEmpty(sql, "WITH");
    } else if LeadingKeyword(sql, "EXPLAIN") {
      LeadingKeywordCleanNonEmpty(sql, "EXPLAIN");
    }
  }

  /** When the type is SELECT: the three ways a statement can be typed SELECT. */
  lemma LeadingSelectMeans(sql: string, c: string)
    ensures LeadingType(sql, c) == Select <==>
      || LeadingKeyword(sql, "SELECT")
      || (LeadingKeyword(sql, "WITH") && KeywordThenSelect(c, "WITH"))
      || (LeadingKeyword(sql, "EXPLAIN") && KeywordThenSelect(c, "EXPLAIN"))
  {
    LeadingKeywordsAreKeywords();
    if LeadingKeyword(sql, "WITH") {
      OnlyOneLeads(sql, "WITH");
    } else if LeadingKeyword(sql, "EXPLAIN") {
      OnlyOneLeads(sql, "EXPLAIN");
    }
  }

  /** What the DML gate admits: a statement free of every deny-list pattern that leads with INSERT, UPDATE or DELETE. */
  lemma DmlOnlyMeans(sql: string)
    ensures IsDmlOnly(sql) <==>
      && !Forbidden(Clean(sql))
      && (LeadingKeyword(sql, "INSERT") || LeadingKeyword(sql, "UPDATE") || LeadingKeyword(sql, "DELETE"))
  {
    LeadingKeywordsAreKeywords();
    var c := Clean(sql);
    AllowedDmlIsExactly(LeadingType(sql, c));
    LeadingDmlMeans(sql, c);
    if LeadingKeyword(sql, "INSERT") {
      LeadingKeywordCleanNonEmpty(sql, "INSERT");
    } else if LeadingKeyword(sql, "UPDATE") {
      LeadingKeywordCleanNonEmpty(sql, "UPDATE");
    } else if LeadingKeyword(sql, "DELETE") {
      LeadingKeywordCleanNonEmpty(sql, "DELETE");
    }
  }

  /** The type is INSERT, UPDATE or DELETE exactly when that keyword leads. */
  lemma LeadingDmlMeans(sql: string, c: string)
    ensures LeadingType(sql, c) in {Insert, Update, Delete} <==>
      LeadingKeyword(sql, "INSERT") || LeadingKeyword(sql, "UPDATE") || LeadingKeyword(sql, "DELETE")
  {
    if LeadingKeyword(sql, "INSERT") {
      LeadingTypeOfKeyword(sql, c, Insert);
    } else if LeadingKeyword(sql, "UPDATE") {
      LeadingTypeOfKeyword(sql, c, Update);
    } else if LeadingKeyword(sql, "DELETE") {
      LeadingTypeOfKeyword(sql, c, Delete);
    }
  }

  /** The DML gate in terms of the classification: valid and INSERT, UPDATE or DELETE. */
  lemma DmlOnlyIsExactly(sql: string)
    ensures IsDmlOnly(sql) <==>
      Classify(sql).valid && Classify(sql).statementType in {Some(Insert), Some(Update), Some(Delete)}
  {
    var r := Classify(sql);
    if r.valid {
      AllowedDmlIsExactly(r.statementType.value);
    }
  }

  /** No statement passes both gates. */
  lemma GatesExclusive(sql: string)
    ensures !(IsSelectOnly(sql) && IsDmlOnly(sql))
  {
  }

  /** A SELECT with a leading keyword whose text has no deny-list match passes the SELECT gate. */
  lemma PlainSelectIsSelectOnly(sql: string)
    requires LeadingKeyword(sql, "SELECT") && !Forbidden(Clean(sql))
    ensures IsSelectOnly(sql) && !IsDmlOnly(sql)
  {
    SelectOnlyMeans(sql);
  }

  /** Cleaned text is upper-case throughout, so a match of `SELECT` in it is a plain occurrence. */
  lemma CleanKeywordOccurs(sql: string, b: nat)
    requires KeywordAt(Clean(sql), b, "SELECT")
    ensures Contains(Clean(sql), "SELECT")
  {
    var y := Trim(StripBlockComments(StripLineComments(sql)));
    var c := Clean(sql);
    UpperSlice(y, b, b + 6);
    UpperIdempotent(y[b..b + 6]);
    assert OccursAt(c, "SELECT", b);
  }

  /** A WITH or EXPLAIN statement without the word SELECT anywhere in its cleaned text has type UNKNOWN. */
  lemma PrefixWithoutSelectIsUnknown(sql: string, kw: string)
    requires kw == "WITH" || kw == "EXPLAIN"
    requires LeadingKeyword(sql, kw) && !Contains(Clean(sql), "SELECT")
    ensures LeadingType(sql, Clean(sql)) == Unknown
  {
    LeadingKeywordsAreKeywords();
    OnlyOneLeads(sql, kw);
    var c := Clean(sql);
    if KeywordThenSelect(c, kw) {
      var i, b :| 0 <= i <= b && b + 6 < |c| && i + |kw| <= b && KeywordAt(c, i, kw)
        && SpacedGap(c, i + |kw|, b) && KeywordAt(c, b, "SELECT") && IsSpace(c[b + 6]);
      CleanKeywordOccurs(sql, b);
    }
  }

  /** The WITH/EXPLAIN test is met by the keyword, white space, one line of anything, white space and `SELECT `. */
  lemma KeywordThenSelectWitness(kw: string, m: string, r: string)
    requires IsKeyword(kw) && NoLineBreak(m)
    ensures KeywordThenSelect(kw + " " + m + " SELECT " + r, kw)
  {
    var c := kw + " " + m + " SELECT " + r;
    var k := |kw|;
    var b := k + 1 + |m| + 1;
    assert Upper(kw) == kw by {
      assert forall j | 0 <= j < k :: UpperChar(kw[j]) == kw[j];
    }
    assert c[..k] == kw;
    assert KeywordAt(c, 0, kw);
    assert c[b..b + 6] == "SELECT";
    UpperLiteral();
    assert KeywordAt(c, b, "SELECT");
    assert c[b + 6] == ' ';
    assert AllSpace(c[k..k + 1]) by {
      assert c[k..k + 1][0] == ' ';
    }
    assert c[k + 1..k + 1 + |m|] == m;
    assert AllSpace(c[k + 1 + |m|..b]) by {
      assert c[k + 1 + |m|..b][0] == ' ';
    }
    assert SpacedGap(c, k, b);
  }

  /**
   * A GRANT statement is rejected by the deny list, but the failure still
   * reports the leading statement type GRANT.
   */
  lemma GrantIsForbiddenButTyped(q: string)
    requires '-' !in q && '/' !in q && !AllSpace(q)
    ensures Classify("GRANT " + q) == ParseResult(false, Some(Grant), Some(ForbiddenDdl), None, None)
  {
    GrantCleanForbidden(q);
    GrantLeads(q);
    LeadingTypeOfKeyword("GRANT " + q, Clean("GRANT " + q), Grant);
  }

  lemma GrantCleanForbidden(q: string)
    requires '-' !in q && '/' !in q && !AllSpace(q)
    ensures Clean("GRANT " + q) != "" && Forbidden(Clean("GRANT " + q))
  {
    var sql := "GRANT " + q;
    CleanOfPlainText(sql);
    TrimGrant(q);
    var t := Trim(sql);
    var c := Upper(t);
    UpperSlice(t, 0, 6);
    assert Upper("GRANT ") == "GRANT ";
    assert c[..6] == "GRANT ";
    GrantPrefixForbidden(c);
  }

  /** Trimming keeps the leading `GRANT ` when something follows it. */
  lemma TrimGrant(q: string)
    requires !AllSpace(q)
    ensures |Trim("GRANT " + q)| > 6 && Trim("GRANT " + q)[..6] == "GRANT "
  {
    var sql := "GRANT " + q;
    var j :| 0 <= j < |q| && !IsSpace(q[j]);
    assert sql[6 + j] == q[j];
    assert sql[0] == 'G';
    var a := TrimWindow(sql, 0, 7 + j);
    assert Trim(sql)[..6] == sql[..6];
  }

  lemma GrantPrefixForbidden(c: string)
    requires |c| > 6 && c[..6] == "GRANT "
    ensures Forbidden(c)
  {
    UpperLiteral();
    assert c[..5] == "GRANT";
    assert KeywordAt(c, 0, "GRANT");
    assert c[5] == ' ';
    assert DangerAt(DENY_LIST[4], c, 0);
  }

  lemma GrantLeads(q: string)
    ensures LeadingKeyword("GRANT " + q, Grant.Name())
  {
    var sql := "GRANT " + q;
    UpperLiteral();
    assert sql[0] == 'G' && !IsSpace(sql[0]);
    assert TrimStart(sql) == sql;
    assert sql[..5] == "GRANT";
    assert KeywordAt(sql, 0, "GRANT");
  }
}
