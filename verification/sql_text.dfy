/**
 * The two text rewrites of the SQL module: `addLimitToSelect`, which appends
 * a row limit to a statement without one, and `redactSensitiveData`, which
 * masks secrets, e-mail addresses and phone numbers before a statement is
 * logged.
 *
 * Each `String.prototype.replace` with a global regular expression is a
 * left-to-right scan: at each position the pattern's match (the one the
 * regular-expression engine's backtracking order picks) is replaced and the
 * scan resumes after it; where nothing matches the character is kept.
 */
module SqlText {
  import opened Text

  function Min(a: int, b: int): int {
    if a <= b then a else b
  }

  /* ---------------------------------------------------------------------- */
  /* addLimitToSelect                                                       */
  /* ---------------------------------------------------------------------- */

  /** `/;\s*$/` matches at `i`: a semicolon with nothing but white space after it. */
  predicate SemicolonTail(s: string, i: int) {
    0 <= i < |s| && s[i] == ';' && AllSpace(s[i + 1..])
  }

  /** At most one position can start the semicolon tail. */
  lemma SemicolonTailUnique(s: string, i: int, j: int)
    requires SemicolonTail(s, i) && SemicolonTail(s, j)
    ensures i == j
  {
  }

  /** `s.replace(/;\s*$/, '')`. */
  function StripSemicolon(s: string): (r: string)
    ensures |r| <= |s| && r == s[..|r|]
  {
    var k := |s| - TrailingSpaces(s);
    if k > 0 && s[k - 1] == ';' then s[..k - 1] else s
  }

  /** Removing the tail cuts the text at the semicolon that starts it, and changes nothing when there is none. */
  lemma StripSemicolonMeans(s: string)
    ensures forall i | SemicolonTail(s, i) :: StripSemicolon(s) == s[..i]
    ensures StripSemicolon(s) == s || exists i :: SemicolonTail(s, i)
  {
    var k := |s| - TrailingSpaces(s);
    if k > 0 && s[k - 1] == ';' {
      assert s[k..] == s[|s| - TrailingSpaces(s)..];
      assert SemicolonTail(s, k - 1);
      forall i | SemicolonTail(s, i)
        ensures StripSemicolon(s) == s[..i]
      {
        SemicolonTailUnique(s, i, k - 1);
      }
    } else {
      forall i | SemicolonTail(s, i)
        ensures false
      {
      }
    }
  }

  /**
   * `addLimitToSelect`: no change when the upper-cased text mentions LIMIT
   * anywhere, else ` LIMIT n` is appended, `n` rendered as JavaScript renders
   * the number.
   */
  function AddLimitToSelect(sql: string, limit: Number): (r: string)
    ensures Contains(Upper(r), "LIMIT")
    ensures Contains(Upper(sql), "LIMIT") ==> r == sql
  {
    if Contains(Upper(sql), "LIMIT") then sql
    else
      var d := NumberToString(limit);
      LimitClauseMentionsLimit(StripSemicolon(sql), d);
      StripSemicolon(sql) + " LIMIT " + d
  }

  lemma LimitClauseMentionsLimit(x: string, d: string)
    ensures Contains(Upper(x + " LIMIT " + d), "LIMIT")
  {
    UpperAppend(x + " LIMIT ", d);
    UpperAppend(x, " LIMIT ");
    var u := Upper(x + " LIMIT " + d);
    assert u[|x| + 1..|x| + 6] == "LIMIT";
    assert OccursAt(u, "LIMIT", |x| + 1);
  }

  /**
   * Without LIMIT in the text, the result is the statement cut at its
   * semicolon tail (or whole, when it has none), then ` LIMIT ` and a
   * decimal numeral that reads back as the limit.
   */
  lemma AddLimitAppends(sql: string, limit: Number, i: int)
    requires !Contains(Upper(sql), "LIMIT")
    ensures SemicolonTail(sql, i) ==> AddLimitToSelect(sql, limit) == sql[..i] + " LIMIT " + NumberToString(limit)
    ensures (forall j :: !SemicolonTail(sql, j)) ==> AddLimitToSelect(sql, limit) == sql + " LIMIT " + NumberToString(limit)
    ensures limit.Int? ==> ParseInt(NumberToString(limit)) == limit
  {
    StripSemicolonMeans(sql);
    if limit.Int? {
      ParseIntRoundTrip(limit.value);
    }
  }

  /** Adding a limit twice is adding it once: the first call leaves LIMIT in the text. */
  lemma AddLimitIdempotent(sql: string, n: Number, m: Number)
    ensures AddLimitToSelect(AddLimitToSelect(sql, n), m) == AddLimitToSelect(sql, n)
  {
  }

  /** The LIMIT test is a plain substring test: a statement mentioning `unlimited` gets no limit. */
  lemma UnlimitedGetsNoLimit(p: string, q: string, n: Number)
    ensures AddLimitToSelect(p + "unlimited" + q, n) == p + "unlimited" + q
  {
    var s := p + "unlimited" + q;
    UpperSlice(s, |p| + 2, |p| + 7);
    assert s[|p| + 2..|p| + 7] == "limit";
    assert Upper("limit") == "LIMIT";
    assert OccursAt(Upper(s), "LIMIT", |p| + 2);
  }

  /* ---------------------------------------------------------------------- */
  /* Scanning replacement                                                   */
  /* ---------------------------------------------------------------------- */

  /** The keys whose quoted values are masked, in the order the source masks them. */
  datatype SecretKey = Password | Token | Secret | ApiKey
  {
    /** The key as written in the pattern and in its replacement. */
    function Name(): (r: string)
      ensures |r| >= 5
    {
      match this
      case Password => "password"
      case Token => "token"
      case Secret => "secret"
      case ApiKey => "api_key"
    }
  }

  /** The patterns `redactSensitiveData` replaces. */
  datatype Pattern =
    /** `KEY\s*=\s*'[^']*'`, case-insensitive */
    | KeyValue(key: SecretKey)
    /** `([a-zA-Z0-9._%+-]+)@([a-zA-Z0-9.-]+\.[a-zA-Z]{2,})` */
    | Email
      | Phone

  /** A match at the start of a text: how many characters it covers and what replaces them. */
  datatype Match = Match(len: nat, text: string)

  /** The character classes of the patterns. */
  datatype CharClass = LocalPart | DomainPart | Letter | Digit

  predicate InClass(c: char, k: CharClass) {
    match k
    case LocalPart => IsAsciiLetter(c) || IsDigit(c) || c == '.' || c == '_' || c == '%' || c == '+' || c == '-'
    case DomainPart => IsAsciiLetter(c) || IsDigit(c) || c == '.' || c == '-'
    case Letter => IsAsciiLetter(c)
    case Digit => IsDigit(c)
  }

  predicate AllIn(s: string, k: CharClass) {
    forall i | 0 <= i < |s| :: InClass(s[i], k)
  }

  /** Length of the longest prefix of `s` drawn from class `k`: what a greedy `[k]+` or `[k]*` consumes. */
  function Run(s: string, k: CharClass): (n: nat)
    ensures n <= |s|
    ensures AllIn(s[..n], k)
    ensures n < |s| ==> !InClass(s[n], k)
  {
    if s == "" || !InClass(s[0], k) then 0
    else
      var n := 1 + Run(s[1..], k);
      assert forall i | 1 <= i < n :: s[..n][i] == s[1..][..n - 1][i - 1];
      n
  }

  /** A run is exactly as long as its leading stretch of class characters. */
  lemma {:induction false} RunUnique(s: string, k: CharClass, n: nat)
    requires n <= |s| && AllIn(s[..n], k) && (n < |s| ==> !InClass(s[n], k))
    ensures Run(s, k) == n
  {
    if n > 0 {
      assert InClass(s[..n][0], k);
      forall j | 1 <= j < n ensures InClass(s[j], k) {
        assert s[..n][j] == s[j];
      }
      assert s[1..][..n - 1] == s[1..n];
      RunUnique(s[1..], k, n - 1);
    }
  }

  /* ---------------------------------------------------------------------- */
  /* The three patterns                                                     */
  /* ---------------------------------------------------------------------- */

  const MASKED_VALUE: string := "='[REDACTED]'"

  /**
   * `KEY\s*=\s*'[^']*'` covers `s[..e + 1]`: the key in any letter case,
   * white space, `=` at `a`, white space, the opening quote at `b` and the
   * first quote after it at `e`.
   */
  predicate KeyValueShape(key: string, s: string, a: int, b: int, e: int) {
    && |key| <= a < b < e < |s|
    && Upper(s[..|key|]) == Upper(key)
    && AllSpace(s[|key|..a]) && s[a] == '='
    && AllSpace(s[a + 1..b]) && s[b] == '\''
    && '\'' !in s[b + 1..e] && s[e] == '\''
  }

  /** Where a run of white space starting at `i` ends: what `\s*` consumes from there. */
  function SkipSpaces(s: string, i: nat): (j: nat)
    requires i <= |s|
    ensures i <= j <= |s|
    ensures forall m | i <= m < j :: IsSpace(s[m])
    ensures j < |s| ==> !IsSpace(s[j])
    decreases |s| - i
  {
    if i == |s| || !IsSpace(s[i]) then i else SkipSpaces(s, i + 1)
  }

  lemma {:induction false} SkipSpacesUnique(s: string, i: nat, j: nat)
    requires i <= j <= |s|
    requires forall m | i <= m < j :: IsSpace(s[m])
    requires j < |s| ==> !IsSpace(s[j])
    ensures SkipSpaces(s, i) == j
    decreases j - i
  {
    if i < j {
      SkipSpacesUnique(s, i + 1, j);
    }
  }

  /** Position of the first quote at or after `i`: where `[^']*'` stops. */
  function NextQuote(s: string, i: nat): (r: Option<nat>)
    requires i <= |s|
    ensures r.Some? ==> i <= r.value < |s| && s[r.value] == '\''
    ensures r.Some? ==> forall m | i <= m < r.value :: s[m] != '\''
    ensures r.None? ==> forall m | i <= m < |s| :: s[m] != '\''
    decreases |s| - i
  {
    if i == |s| then None else if s[i] == '\'' then Some(i) else NextQuote(s, i + 1)
  }

  lemma {:induction false} NextQuoteUnique(s: string, i: nat, e: nat)
    requires i <= e < |s| && s[e] == '\''
    requires forall m | i <= m < e :: s[m] != '\''
    ensures NextQuote(s, i) == Some(e)
    decreases e - i
  {
    if i < e {
      NextQuoteUnique(s, i + 1, e);
    }
  }

  lemma AllSpaceSlice(s: string, i: nat, j: nat)
    requires i <= j <= |s|
    ensures AllSpace(s[i..j]) <==> forall m | i <= m < j :: IsSpace(s[m])
  {
    if forall m | i <= m < j :: IsSpace(s[m]) {
      forall k | 0 <= k < j - i ensures IsSpace(s[i..j][k]) {
        assert s[i..j][k] == s[i + k];
      }
    }
    if AllSpace(s[i..j]) {
      forall m | i <= m < j ensures IsSpace(s[m]) {
        assert s[m] == s[i..j][m - i];
      }
    }
  }

  lemma QuoteFreeSlice(s: string, i: nat, j: nat)
    requires i <= j <= |s|
    ensures '\'' !in s[i..j] <==> forall m | i <= m < j :: s[m] != '\''
  {
    if '\'' in s[i..j] {
      var k :| 0 <= k < j - i && s[i..j][k] == '\'';
      assert s[i + k] == '\'';
    }
    if exists m | i <= m < j :: s[m] == '\'' {
      var m :| i <= m < j && s[m] == '\'';
      assert s[i..j][m - i] == '\'';
    }
  }

  /** The key-value match at the start of `s` for key `k`. */
  function KeyValueMatch(k: string, s: string): (r: Option<Match>)
    requires k != ""
    ensures r.Some? ==> 0 < r.value.len <= |s| && r.value.text == k + MASKED_VALUE
  {
    if |s| < |k| || Upper(s[..|k|]) != Upper(k) then None
    else
      var a := SkipSpaces(s, |k|);
      if a == |s| || s[a] != '=' then None
      else
        var b := SkipSpaces(s, a + 1);
        if b == |s| || s[b] != '\'' then None
        else
          match NextQuote(s, b + 1)
          case None => None
          case Some(e) => Some(Match(e + 1, k + MASKED_VALUE))
  }

  /**
   * The key-value match exists exactly when the text starts with the
   * pattern's shape, and it then covers that shape through its closing quote.
   */
  lemma KeyValueMatchMeans(k: string, s: string)
    requires k != ""
    ensures KeyValueMatch(k, s).Some? <==> exists a, b, e :: KeyValueShape(k, s, a, b, e)
    ensures forall a, b, e | KeyValueShape(k, s, a, b, e) :: KeyValueMatch(k, s) == Some(Match(e + 1, k + MASKED_VALUE))
  {
    if KeyValueMatch(k, s).Some? {
      var a, b, e := KeyValueMatchShape(k, s);
    }
    forall a, b, e | KeyValueShape(k, s, a, b, e)
      ensures KeyValueMatch(k, s) == Some(Match(e + 1, k + MASKED_VALUE))
    {
      KeyValueShapeMatches(k, s, a, b, e);
    }
  }

  lemma KeyValueMatchShape(k: string, s: string) returns (a: int, b: int, e: int)
    requires k != "" && KeyValueMatch(k, s).Some?
    ensures KeyValueShape(k, s, a, b, e)
  {
    a := SkipSpaces(s, |k|);
    b := SkipSpaces(s, a + 1);
    e := NextQuote(s, b + 1).value;
    AllSpaceSlice(s, |k|, a);
    AllSpaceSlice(s, a + 1, b);
    QuoteFreeSlice(s, b + 1, e);
  }

  lemma KeyValueShapeMatches(k: string, s: string, a: int, b: int, e: int)
    requires k != "" && KeyValueShape(k, s, a, b, e)
    ensures KeyValueMatch(k, s) == Some(Match(e + 1, k + MASKED_VALUE))
  {
    AllSpaceSlice(s, |k|, a);
    SkipSpacesUnique(s, |k|, a);
    AllSpaceSlice(s, a + 1, b);
    SkipSpacesUnique(s, a + 1, b);
    QuoteFreeSlice(s, b + 1, e);
    NextQuoteUnique(s, b + 1, e);
  }

  /** `[a-zA-Z0-9.-]+\.[a-zA-Z]{2,}`: a dot at `p` with at least two letters after it. */
  predicate DotBeforeLabel(d: string, p: int) {
    1 <= p && p + 2 < |d| && d[p] == '.' && IsAsciiLetter(d[p + 1]) && IsAsciiLetter(d[p + 2])
  }

  /** The last dot below `e` that has two letters after it: where the backtracking of `[a-zA-Z0-9.-]+` stops. */
  function LastDot(d: string, e: nat): (r: Option<nat>)
    requires e <= |d|
    ensures r.Some? ==> r.value < e && DotBeforeLabel(d, r.value)
    ensures r.Some? ==> forall p | r.value < p < e :: !DotBeforeLabel(d, p)
    ensures r.None? ==> forall p | 0 <= p < e :: !DotBeforeLabel(d, p)
  {
    if e <= 1 then None
    else if DotBeforeLabel(d, e - 1) then Some(e - 1)
    else LastDot(d, e - 1)
  }

  /**
   * The e-mail pattern covers `s[..q]`: a local part `s[..n]`, `@`, a domain
   * run up to the dot at `p`, and letters after the dot.
   */
  predicate EmailShape(s: string, n: int, p: int, q: int) {
    && 0 < n && n + 1 < p && p + 2 < q <= |s|
    && AllIn(s[..n], LocalPart) && s[n] == '@'
    && AllIn(s[n + 1..p], DomainPart) && s[p] == '.'
    && AllIn(s[p + 1..q], Letter)
  }

  /** The local part with all but its first two characters replaced by `***`. */
  function MaskEmail(s: string, n: nat, q: nat): string
    requires n < q <= |s|
  {
    s[..Min(2, n)] + "***@" + s[n + 1..q]
  }

  function EmailMatch(s: string): (r: Option<Match>)
    ensures r.Some? ==> 0 < r.value.len <= |s|
  {
    var n := Run(s, LocalPart);
    if n == 0 || n == |s| || s[n] != '@' then None
    else
      var d := s[n + 1..];
      match LastDot(d, Run(d, DomainPart))
      case None => None
      case Some(p) =>
        var q := p + 1 + Run(d[p + 1..], Letter);
        Some(Match(n + 1 + q, MaskEmail(s, n, n + 1 + q)))
  }

  /** A greedy run from `a` covers every stretch from `a` drawn from its class. */
  lemma {:induction false} RunCoversFrom(s: string, k: CharClass, a: nat, m: nat)
    requires a + m <= |s| && forall j | a <= j < a + m :: InClass(s[j], k)
    ensures m <= Run(s[a..], k)
    decreases m
  {
    if m > 0 {
      assert s[a..][0] == s[a];
      assert s[a..][1..] == s[a + 1..];
      RunCoversFrom(s, k, a + 1, m - 1);
    }
  }

  /** What the e-mail match covers has the e-mail shape, and its replacement masks that local part. */
  lemma EmailMatchShape(s: string) returns (n: nat, p: nat)
    requires EmailMatch(s).Some?
    ensures EmailShape(s, n, p, EmailMatch(s).value.len)
    ensures EmailMatch(s).value.text == MaskEmail(s, n, EmailMatch(s).value.len)
  {
    n := Run(s, LocalPart);
    var d := s[n + 1..];
    var e := Run(d, DomainPart);
    var dot := LastDot(d, e).value;
    var t := d[dot + 1..];
    var l := Run(t, Letter);
    var q := n + 1 + dot + 1 + l;
    p := n + 1 + dot;
    assert s[n + 1..p] == d[..e][..dot];
    assert s[p + 1..q] == t[..l];
  }

  /** Every text of the e-mail shape at the start of `s` is matched, and the match is at least as long. */
  lemma EmailShapeBound(s: string, n: int, p: int, q: int)
    requires EmailShape(s, n, p, q)
    ensures EmailMatch(s).Some? && q <= EmailMatch(s).value.len
  {
    RunUnique(s, LocalPart, n);
    var d := s[n + 1..];
    var dp := p - n - 1;
    var dq := q - n - 1;
    EmailDomainFacts(s, n, p, q);
    var e := Run(d, DomainPart);
    var dot := LastDot(d, e).value;
    if dp == dot {
      RunCoversFrom(d, Letter, dot + 1, dq - dot - 1);
    } else {
      assert !IsAsciiLetter(d[dot]);
    }
  }

  /** The e-mail shape read inside the text after `@`. */
  lemma EmailDomainFacts(s: string, n: int, p: int, q: int)
    requires EmailShape(s, n, p, q)
    ensures var d := s[n + 1..];
      && p - n <= Run(d, DomainPart)
      && DotBeforeLabel(d, p - n - 1)
      && q - n - 1 <= |d|
      && forall j | p - n - 1 < j < q - n - 1 :: IsAsciiLetter(d[j])
  {
    var d := s[n + 1..];
    forall j | 0 <= j < p - n ensures InClass(d[j], DomainPart) {
      if j < p - n - 1 {
        assert s[n + 1..p][j] == d[j];
      }
    }
    RunCoversFrom(d, DomainPart, 0, p - n);
    assert d[0..] == d;
    forall j | p - n - 1 < j < q - n - 1 ensures IsAsciiLetter(d[j]) {
      assert s[p + 1..q][j - (p - n)] == d[j];
    }
  }

  /**
   * The e-mail match exists exactly when the text starts with the e-mail
   * shape; it is the longest such text, and its replacement keeps at most
   * two characters of the local part.
   */
  lemma EmailMatchMeans(s: string)
    ensures EmailMatch(s).Some? <==> exists n, p, q :: EmailShape(s, n, p, q)
    ensures EmailMatch(s).Some? ==>
      exists n, p :: EmailShape(s, n, p, EmailMatch(s).value.len) && EmailMatch(s).value.text == MaskEmail(s, n, EmailMatch(s).value.len)
    ensures forall n, p, q | EmailShape(s, n, p, q) :: EmailMatch(s).Some? && q <= EmailMatch(s).value.len
  {
    if EmailMatch(s).Some? {
      var n, p := EmailMatchShape(s);
    }
    forall n, p, q | EmailShape(s, n, p, q)
      ensures EmailMatch(s).Some? && q <= EmailMatch(s).value.len
    {
      EmailShapeBound(s, n, p, q);
    }
  }

  /** `\+1\d{10}` */
  /** `\+1\d{10}` at the start of `s`; the match keeps its first five and last two characters. */
  function PhoneMatch(s: string): (r: Option<Match>)
    ensures r.Some? ==> r.value.len == 12 <= |s|
  {
    if |s| >= 12 && s[0] == '+' && s[1] == '1' && AllIn(s[2..12], Digit) then
      Some(Match(12, s[..5] + "***" + s[10..12]))
    else None
  }

  function MatchAt(pat: Pattern, s: string): (r: Option<Match>)
    ensures r.Some? ==> 0 < r.value.len <= |s|
  {
    match pat
    case KeyValue(key) => KeyValueMatch(key.Name(), s)
    case Email => EmailMatch(s)
    case Phone => PhoneMatch(s)
  }

  /** `s.replace(/pattern/g, …)`: the leftmost match is replaced, and the scan resumes after it. */
  function ReplaceAll(pat: Pattern, s: string): string
    decreases |s|
  {
    if s == "" then ""
    else
      match MatchAt(pat, s)
      case Some(m) => m.text + ReplaceAll(pat, s[m.len..])
      case None => [s[0]] + ReplaceAll(pat, s[1..])
  }

  /** `redactSensitiveData`: the four key-value masks, then e-mail addresses, then phone numbers. */
  function RedactSensitiveData(sql: string): string {
    var a := ReplaceAll(KeyValue(Password), sql);
    var b := ReplaceAll(KeyValue(Token), a);
    var c := ReplaceAll(KeyValue(Secret), b);
    var d := ReplaceAll(KeyValue(ApiKey), c);
    var e := ReplaceAll(Email, d);
    ReplaceAll(Phone, e)
  }

  /* ---------------------------------------------------------------------- */
  /* Properties of the scan                                                 */
  /* ---------------------------------------------------------------------- */

  /** A prefix in which no match starts is copied through unchanged. */
  lemma ReplaceAllSkips(pat: Pattern, p: string, x: string)
    requires forall i | 0 <= i < |p| :: MatchAt(pat, (p + x)[i..]).None?
    ensures ReplaceAll(pat, p + x) == p + ReplaceAll(pat, x)
  {
    forall i | 0 <= i < |p| ensures NoMatchFrom(pat, p + x, i) {
    }
    ReplaceAllSkipsFrom(pat, p, x);
  }

  /** The suffix of `s` from `i` on; a name of its own keeps the scan's unfolding out of the hypotheses below. */
  function SuffixFrom(s: string, i: nat): string
    requires i <= |s|
  {
    s[i..]
  }

  predicate NoMatchFrom(pat: Pattern, s: string, i: nat)
    requires i <= |s|
  {
    MatchAt(pat, SuffixFrom(s, i)).None?
  }

  lemma {:induction false} ReplaceAllSkipsFrom(pat: Pattern, p: string, x: string)
    requires forall i | 0 <= i < |p| :: NoMatchFrom(pat, p + x, i)
    ensures ReplaceAll(pat, p + x) == p + ReplaceAll(pat, x)
    decreases |p|
  {
    if p != "" {
      var s := p + x;
      assert NoMatchFrom(pat, s, 0);
      ReplaceAllStep(pat, p, x);
      NoMatchFromShift(pat, p, x);
      ReplaceAllSkipsFrom(pat, p[1..], x);
      ConsConcat(p, ReplaceAll(pat, x));
    } else {
      assert p + x == x;
    }
  }

  lemma ConsConcat(p: string, x: string)
    requires p != ""
    ensures (p + x)[0] == p[0] && (p + x)[1..] == p[1..] + x && [p[0]] + p[1..] == p
  {
  }

  lemma NoMatchFromShift(pat: Pattern, p: string, x: string)
    requires p != ""
    requires forall i | 0 <= i < |p| :: NoMatchFrom(pat, p + x, i)
    ensures forall i | 0 <= i < |p| - 1 :: NoMatchFrom(pat, p[1..] + x, i)
  {
    forall i | 0 <= i < |p| - 1 ensures NoMatchFrom(pat, p[1..] + x, i) {
      assert NoMatchFrom(pat, p + x, i + 1);
      assert SuffixFrom(p[1..] + x, i) == SuffixFrom(p + x, i + 1);
    }
  }

  /** One character of `p + x` that starts no match is copied, and the scan goes on inside `p`. */
  lemma ReplaceAllStep(pat: Pattern, p: string, x: string)
    requires p != "" && NoMatchFrom(pat, p + x, 0)
    ensures ReplaceAll(pat, p + x) == [p[0]] + ReplaceAll(pat, p[1..] + x)
  {
    var s := p + x;
    assert SuffixFrom(s, 0) == s;
    ReplaceAllNoMatch(pat, s);
    ConsConcat(p, x);
  }

  lemma ReplaceAllNoMatch(pat: Pattern, s: string)
    requires s != "" && MatchAt(pat, s).None?
    ensures ReplaceAll(pat, s) == [s[0]] + ReplaceAll(pat, s[1..])
  {
  }

  /** A match starting at the front is replaced and the scan continues after it. */
  lemma ReplaceAllAtMatch(pat: Pattern, s: string, m: Match)
    requires MatchAt(pat, s) == Some(m)
    ensures ReplaceAll(pat, s) == m.text + ReplaceAll(pat, s[m.len..])
  {
  }

  /** A match covering exactly `m` at the front of `m + q` is replaced, and the scan goes on with `q`. */
  lemma ReplaceAllFront(pat: Pattern, m: string, q: string, text: string)
    requires MatchAt(pat, m + q) == Some(Match(|m|, text))
    ensures ReplaceAll(pat, m + q) == text + ReplaceAll(pat, q)
  {
    assert (m + q)[|m|..] == q;
  }

  /** The character without which a pattern cannot match: a quote, `@` or `+`. */
  function Anchor(pat: Pattern): char {
    match pat
    case KeyValue(_) => '\''
    case Email => '@'
    case Phone => '+'
  }

  lemma MatchNeedsAnchor(pat: Pattern, s: string)
    ensures MatchAt(pat, s).Some? ==> Anchor(pat) in s
  {
    if MatchAt(pat, s).Some? {
      match pat
      case KeyValue(key) =>
        var a, b, e := KeyValueMatchShape(key.Name(), s);
        assert s[b] == '\'';
      case Email =>
        var n, p := EmailMatchShape(s);
        assert s[n] == '@';
      case Phone =>
        assert s[0] == '+';
    }
  }

  /** A text without the pattern's anchor character is left as it is. */
  lemma ReplaceAllWithoutAnchor(pat: Pattern, s: string)
    requires Anchor(pat) !in s
    ensures ReplaceAll(pat, s) == s
  {
    forall i | 0 <= i < |s|
      ensures MatchAt(pat, (s + "")[i..]).None?
    {
      assert (s + "")[i..] == s[i..];
      MatchNeedsAnchor(pat, s[i..]);
    }
    ReplaceAllSkips(pat, s, "");
    assert s + "" == s;
  }

  /** Text with no quote, `@` or `+` passes through redaction unchanged. */
  lemma RedactLeavesPlainText(s: string)
    requires '\'' !in s && '@' !in s && '+' !in s
    ensures RedactSensitiveData(s) == s
  {
    ReplaceAllWithoutAnchor(KeyValue(Password), s);
    ReplaceAllWithoutAnchor(KeyValue(Token), s);
    ReplaceAllWithoutAnchor(KeyValue(Secret), s);
    ReplaceAllWithoutAnchor(KeyValue(ApiKey), s);
    ReplaceAllWithoutAnchor(Email, s);
    ReplaceAllWithoutAnchor(Phone, s);
  }

  /* ---------------------------------------------------------------------- */
  /* Each mask in context                                                   */
  /* ---------------------------------------------------------------------- */

  /** `+1` and ten digits become the first five characters, `***` and the last two. */
  lemma PhoneMasked(p: string, d: string, q: string)
    requires '+' !in p
    requires |d| == 10 && AllIn(d, Digit)
    ensures ReplaceAll(Phone, p + "+1" + d + q) == p + "+1" + d[..3] + "***" + d[8..] + ReplaceAll(Phone, q)
  {
    var t := "+1" + d + q;
    var m := "+1" + d[..3] + "***" + d[8..];
    var rest := ReplaceAll(Phone, q);
    PhoneFront(d, q);
    PhoneSkipsPrefix(p, t);
    calc {
      ReplaceAll(Phone, p + "+1" + d + q);
      { Assoc4(p, "+1", d, q); }
      ReplaceAll(Phone, p + t);
      p + (m + rest);
      { Assoc6(p, "+1", d[..3], "***", d[8..], rest); }
      p + "+1" + d[..3] + "***" + d[8..] + rest;
    }
  }

  /** The phone number at the front of the text is masked, and the scan goes on after it. */
  lemma PhoneFront(d: string, q: string)
    requires |d| == 10 && AllIn(d, Digit)
    ensures ReplaceAll(Phone, "+1" + d + q) == "+1" + d[..3] + "***" + d[8..] + ReplaceAll(Phone, q)
  {
    var t := "+1" + d + q;
    assert t[2..12] == d;
    assert t[..5] == "+1" + d[..3];
    assert t[10..12] == d[8..];
    ReplaceAllAtMatch(Phone, t, Match(12, "+1" + d[..3] + "***" + d[8..]));
    assert t[12..] == q;
  }

  /** Text without `+` starts no phone match and is copied through. */
  lemma PhoneSkipsPrefix(p: string, t: string)
    requires '+' !in p
    ensures ReplaceAll(Phone, p + t) == p + ReplaceAll(Phone, t)
  {
    forall i | 0 <= i < |p|
      ensures MatchAt(Phone, (p + t)[i..]).None?
    {
      assert (p + t)[i..][0] == p[i];
    }
    ReplaceAllSkips(Phone, p, t);
  }

  lemma Assoc6(a: string, b: string, c: string, d: string, e: string, f: string)
    ensures a + (b + c + d + e + f) == a + b + c + d + e + f
  {
  }

  /**
   * The key is made of letters and `_`, and starts with a letter that does
   * not occur again in it, ignoring case.
   */
  predicate FirstLetterOnce(k: string) {
    && k != "" && IsAsciiLetter(k[0])
    && (forall j | 0 <= j < |k| :: IsAsciiLetter(k[j]) || k[j] == '_')
    && (forall j | 1 <= j < |k| :: UpperChar(k[j]) != UpperChar(k[0]))
  }

  lemma SecretKeyFirstLetterOnce(key: SecretKey)
    ensures FirstLetterOnce(key.Name())
  {
  }

  /**
   * No key-value match for `k` starts inside a quote-free `p` that is
   * followed by `k`'s first letter: a match cannot begin part-way into the key.
   */
  lemma NoKeyValueBefore(k: string, p: string, r: string)
    requires FirstLetterOnce(k) && '\'' !in p
    requires r != "" && UpperChar(r[0]) == UpperChar(k[0])
    ensures forall i | 0 <= i < |p| :: KeyValueMatch(k, (p + r)[i..]).None?
  {
    forall i | 0 <= i < |p|
      ensures KeyValueMatch(k, (p + r)[i..]).None?
    {
      NoKeyValueAt(k, p, r, i);
    }
  }

  lemma NoKeyValueAt(k: string, p: string, r: string, i: int)
    requires FirstLetterOnce(k) && '\'' !in p
    requires r != "" && UpperChar(r[0]) == UpperChar(k[0])
    requires 0 <= i < |p|
    ensures KeyValueMatch(k, (p + r)[i..]).None?
  {
    var t := (p + r)[i..];
    var j := |p| - i;
    assert t[j] == r[0];
    assert t[..j] == p[i..];
    if KeyValueMatch(k, t).Some? {
      var a, b, e := KeyValueMatchShape(k, t);
      ShapeInterior(k, t, a, b, e);
    }
  }

  /**
   * Inside a key-value match, before its opening quote, there is no quote
   * and no further occurrence of the key's first letter.
   */
  lemma ShapeInterior(k: string, t: string, a: int, b: int, e: int)
    requires FirstLetterOnce(k) && KeyValueShape(k, t, a, b, e)
    ensures '\'' !in t[..b]
    ensures forall j | 0 < j <= b :: UpperChar(t[j]) != UpperChar(k[0])
  {
    forall j | 0 < j <= b
      ensures UpperChar(t[j]) != UpperChar(k[0])
    {
      if j < |k| {
        assert Upper(t[..|k|])[j] == UpperChar(t[j]);
      } else if j < a {
        assert t[|k|..a][j - |k|] == t[j];
      } else if a < j < b {
        assert t[a + 1..b][j - a - 1] == t[j];
      }
    }
    forall j | 0 <= j < b
      ensures t[j] != '\''
    {
      if j < |k| {
        assert Upper(t[..|k|])[j] == UpperChar(t[j]);
      } else if j < a {
        assert t[|k|..a][j - |k|] == t[j];
      } else if a < j < b {
        assert t[a + 1..b][j - a - 1] == t[j];
      }
    }
  }

  /**
   * A quoted value after the key (in any letter case), `=` and optional
   * white space becomes `key='[REDACTED]'`; the text before it is untouched.
   */
  lemma KeyValueMasked(key: SecretKey, p: string, k: string, w1: string, w2: string, v: string, q: string)
    requires '\'' !in p && Upper(k) == Upper(key.Name())
    requires AllSpace(w1) && AllSpace(w2) && '\'' !in v
    ensures ReplaceAll(KeyValue(key), p + (k + w1 + "=" + w2 + "'" + v + "'") + q)
         == p + key.Name() + MASKED_VALUE + ReplaceAll(KeyValue(key), q)
  {
    var pat := KeyValue(key);
    var m := k + w1 + "=" + w2 + "'" + v + "'";
    var rest := ReplaceAll(pat, q);
    KeyValueMaskedFront(key, k, w1, w2, v, q);
    SameFirstLetter(k, key.Name());
    assert (m + q)[0] == k[0];
    KeyValueSkipsPrefix(key, p, m + q);
    calc {
      ReplaceAll(pat, p + m + q);
      { Assoc(p, m, q); }
      ReplaceAll(pat, p + (m + q));
      p + ReplaceAll(pat, m + q);
      p + (key.Name() + MASKED_VALUE + rest);
      { Assoc4(p, key.Name(), MASKED_VALUE, rest); }
      p + key.Name() + MASKED_VALUE + rest;
    }
  }

  lemma Assoc(a: string, b: string, c: string)
    ensures a + b + c == a + (b + c)
  {
  }

  lemma Assoc4(a: string, b: string, c: string, d: string)
    ensures a + (b + c + d) == a + b + c + d
    ensures a + b + c + d == a + (b + c + d)
  {
  }

  lemma SameFirstLetter(k: string, name: string)
    requires name != "" && Upper(k) == Upper(name)
    ensures k != "" && UpperChar(k[0]) == UpperChar(name[0])
  {
    assert |Upper(k)| == |Upper(name)|;
    assert Upper(k)[0] == UpperChar(k[0]);
  }

  /** The masking at the front of the text. */
  lemma KeyValueMaskedFront(key: SecretKey, k: string, w1: string, w2: string, v: string, q: string)
    requires Upper(k) == Upper(key.Name())
    requires AllSpace(w1) && AllSpace(w2) && '\'' !in v
    ensures ReplaceAll(KeyValue(key), (k + w1 + "=" + w2 + "'" + v + "'") + q) == key.Name() + MASKED_VALUE + ReplaceAll(KeyValue(key), q)
  {
    var name := key.Name();
    var t := k + w1 + "=" + w2 + "'" + v + "'" + q;
    var e := |k| + |w1| + 1 + |w2| + 1 + |v|;
    assert |k| == |name| by {
      assert |Upper(k)| == |Upper(name)|;
    }
    KeyValueInContext(name, k, w1, w2, v, q);
    KeyValueShapeMatches(name, t, |k| + |w1|, |k| + |w1| + 1 + |w2|, e);
    ReplaceAllAtMatch(KeyValue(key), t, Match(e + 1, name + MASKED_VALUE));
    assert t[e + 1..] == q;
  }

  /** A quote-free prefix followed by the key's first letter is copied through. */
  lemma KeyValueSkipsPrefix(key: SecretKey, p: string, t: string)
    requires '\'' !in p && t != "" && UpperChar(t[0]) == UpperChar(key.Name()[0])
    ensures ReplaceAll(KeyValue(key), p + t) == p + ReplaceAll(KeyValue(key), t)
  {
    SecretKeyFirstLetterOnce(key);
    NoKeyValueBefore(key.Name(), p, t);
    ReplaceAllSkips(KeyValue(key), p, t);
  }

  lemma KeyValueInContext(name: string, k: string, w1: string, w2: string, v: string, q: string)
    requires |k| == |name| && Upper(k) == Upper(name)
    requires AllSpace(w1) && AllSpace(w2) && '\'' !in v
    ensures var t := k + w1 + "=" + w2 + "'" + v + "'" + q;
      KeyValueShape(name, t, |k| + |w1|, |k| + |w1| + 1 + |w2|, |k| + |w1| + 1 + |w2| + 1 + |v|)
  {
    var t := k + w1 + "=" + w2 + "'" + v + "'" + q;
    var a := |k| + |w1|;
    var b := a + 1 + |w2|;
    var e := b + 1 + |v|;
    assert t[..|k|] == k;
    assert t[|k|..a] == w1;
    assert t[a] == '=';
    assert t[a + 1..b] == w2;
    assert t[b] == '\'';
    assert t[b + 1..e] == v;
    assert t[e] == '\'';
  }

  /** Every character of an e-mail match after its `@` is a domain character. */
  lemma EmailShapeDomain(t: string, n: int, p: int, q: int)
    requires EmailShape(t, n, p, q)
    ensures forall j | 0 <= j < n :: InClass(t[j], LocalPart)
    ensures forall j | n < j < q :: InClass(t[j], DomainPart)
  {
    forall j | 0 <= j < n
      ensures InClass(t[j], LocalPart)
    {
      assert t[..n][j] == t[j];
    }
    forall j | n < j < q
      ensures InClass(t[j], DomainPart)
    {
      if j < p {
        assert t[n + 1..p][j - n - 1] == t[j];
      } else if p < j {
        assert t[p + 1..q][j - p - 1] == t[j];
      }
    }
  }

  /** No e-mail match starts inside an `@`-free prefix that ends with a character outside the local-part class. */
  lemma NoEmailBefore(p: string, r: string)
    requires '@' !in p && (p == "" || !InClass(p[|p| - 1], LocalPart))
    ensures forall i | 0 <= i < |p| :: EmailMatch((p + r)[i..]).None?
  {
    forall i | 0 <= i < |p|
      ensures EmailMatch((p + r)[i..]).None?
    {
      var t := (p + r)[i..];
      var j := |p| - 1 - i;
      assert t[j] == p[|p| - 1];
      assert t[..j + 1] == p[i..];
      if EmailMatch(t).Some? {
        var n, dot := EmailMatchShape(t);
        EmailShapeDomain(t, n, dot, EmailMatch(t).value.len);
      }
    }
  }

  lemma EmailInContext(local: string, dom: string, tld: string, q: string)
    requires local != "" && AllIn(local, LocalPart)
    requires dom != "" && AllIn(dom, DomainPart)
    requires |tld| >= 2 && AllIn(tld, Letter)
    ensures var m := local + "@" + dom + "." + tld;
      EmailShape(m + q, |local|, |local| + 1 + |dom|, |m|)
  {
    var m := local + "@" + dom + "." + tld;
    var t := m + q;
    var n := |local|;
    var p := n + 1 + |dom|;
    assert t[..n] == local;
    assert t[n] == '@';
    assert t[n + 1..p] == dom;
    assert t[p] == '.';
    assert t[p + 1..|m|] == tld;
  }

  /** An address followed by a non-domain character is matched exactly. */
  lemma EmailFront(local: string, dom: string, tld: string, q: string)
    requires local != "" && AllIn(local, LocalPart)
    requires dom != "" && AllIn(dom, DomainPart)
    requires |tld| >= 2 && AllIn(tld, Letter)
    requires q == "" || !InClass(q[0], DomainPart)
    ensures var m := local + "@" + dom + "." + tld;
      EmailMatch(m + q) == Some(Match(|m|, local[..Min(2, |local|)] + "***@" + dom + "." + tld))
  {
    var m := local + "@" + dom + "." + tld;
    var t := m + q;
    EmailInContext(local, dom, tld, q);
    EmailShapeBound(t, |local|, |local| + 1 + |dom|, |m|);
    var n, dot := EmailMatchShape(t);
    var len := EmailMatch(t).value.len;
    RunUnique(t, LocalPart, n);
    RunUnique(t, LocalPart, |local|);
    if q != "" {
      assert t[|m|] == q[0];
    }
    EmailEndsAt(t, |m|, n, dot, len);
    MaskOfAddress(local, dom, tld, q);
  }

  /** A match cannot run past a character outside the domain class. */
  lemma EmailEndsAt(t: string, stop: int, n: int, p: int, q: int)
    requires EmailShape(t, n, p, q) && n < stop
    requires stop < |t| ==> !InClass(t[stop], DomainPart)
    ensures q <= stop
  {
    EmailShapeDomain(t, n, p, q);
  }

  lemma MaskOfAddress(local: string, dom: string, tld: string, q: string)
    requires local != ""
    ensures var m := local + "@" + dom + "." + tld;
      MaskEmail(m + q, |local|, |m|) == local[..Min(2, |local|)] + "***@" + dom + "." + tld
  {
    var m := local + "@" + dom + "." + tld;
    var t := m + q;
    assert t[..Min(2, |local|)] == local[..Min(2, |local|)];
    assert t[|local| + 1..|m|] == dom + "." + tld;
  }

  /**
   * An e-mail address between an `@`-free prefix ending outside the
   * local-part class and a character outside the domain class keeps at most
   * two characters of its local part, then `***@` and the whole domain.
   */
  lemma EmailMasked(p: string, local: string, dom: string, tld: string, q: string)
    requires '@' !in p && (p == "" || !InClass(p[|p| - 1], LocalPart))
    requires local != "" && AllIn(local, LocalPart)
    requires dom != "" && AllIn(dom, DomainPart)
    requires |tld| >= 2 && AllIn(tld, Letter)
    requires q == "" || !InClass(q[0], DomainPart)
    ensures ReplaceAll(Email, p + (local + "@" + dom + "." + tld) + q)
         == p + (local[..Min(2, |local|)] + "***@" + dom + "." + tld) + ReplaceAll(Email, q)
  {
    var m := local + "@" + dom + "." + tld;
    var masked := local[..Min(2, |local|)] + "***@" + dom + "." + tld;
    EmailFrontReplaced(local, dom, tld, q);
    EmailSkipsPrefix(p, m + q);
    Assoc(p, m, q);
    Assoc(p, masked, ReplaceAll(Email, q));
  }

  lemma EmailFrontReplaced(local: string, dom: string, tld: string, q: string)
    requires local != "" && AllIn(local, LocalPart)
    requires dom != "" && AllIn(dom, DomainPart)
    requires |tld| >= 2 && AllIn(tld, Letter)
    requires q == "" || !InClass(q[0], DomainPart)
    ensures ReplaceAll(Email, (local + "@" + dom + "." + tld) + q)
         == (local[..Min(2, |local|)] + "***@" + dom + "." + tld) + ReplaceAll(Email, q)
  {
    var m := local + "@" + dom + "." + tld;
    var masked := local[..Min(2, |local|)] + "***@" + dom + "." + tld;
    EmailFront(local, dom, tld, q);
    assert MatchAt(Email, m + q) == Some(Match(|m|, masked));
    ReplaceAllFront(Email, m, q, masked);
    assert ReplaceAll(Email, m + q) == masked + ReplaceAll(Email, q);
  }

  lemma EmailSkipsPrefix(p: string, r: string)
    requires '@' !in p && (p == "" || !InClass(p[|p| - 1], LocalPart))
    ensures ReplaceAll(Email, p + r) == p + ReplaceAll(Email, r)
  {
    NoEmailBefore(p, r);
    ReplaceAllSkips(Email, p, r);
  }

  /* ---------------------------------------------------------------------- */
  /* The whole redaction on one assignment                                  */
  /* ---------------------------------------------------------------------- */

  /** `name='v'`. */
  function KeyValueText(name: string, v: string): string {
    name + "='" + v + "'"
  }

  /** Just before the opening quote of a key-value match stand `=` and the key's last letter, each possibly followed by white space. */
  lemma ShapeNeighbours(k: string, t: string, a: int, b: int, e: int)
    requires k != "" && KeyValueShape(k, t, a, b, e)
    ensures b - 1 == a || IsSpace(t[b - 1])
    ensures a == |k| || IsSpace(t[a - 1])
    ensures a == |k| ==> UpperChar(t[a - 1]) == UpperChar(k[|k| - 1])
  {
    if b - 1 != a {
      assert t[a + 1..b][b - a - 2] == t[b - 1];
    }
    if a != |k| {
      assert t[|k|..a][a - |k| - 1] == t[a - 1];
    } else {
      assert Upper(t[..|k|])[|k| - 1] == UpperChar(t[a - 1]);
    }
  }

  /** In `y1 + "'" + y2` with quote-free halves the only quote is the middle one. */
  lemma OnlyQuote(y1: string, y2: string)
    requires '\'' !in y1 && '\'' !in y2
    ensures forall j | 0 <= j < |y1 + "'" + y2| && (y1 + "'" + y2)[j] == '\'' :: j == |y1|
  {
    var z := y1 + "'" + y2;
    forall j | 0 <= j < |z| && z[j] == '\''
      ensures j == |y1|
    {
    }
  }

  /** Text that starts with a quote and holds one more quote has no key-value match anywhere. */
  lemma NoKeyValueInQuoted(k: string, y1: string, y2: string)
    requires FirstLetterOnce(k) && '\'' !in y1 && '\'' !in y2
    ensures forall i | 0 <= i < |"'" + y1 + "'" + y2| :: KeyValueMatch(k, ("'" + y1 + "'" + y2)[i..]).None?
  {
    var r := "'" + y1 + "'" + y2;
    assert r[1..] == y1 + "'" + y2;
    OnlyQuote(y1, y2);
    forall i | 0 <= i < |r|
      ensures KeyValueMatch(k, r[i..]).None?
    {
      var t := r[i..];
      if KeyValueMatch(k, t).Some? {
        var a, b, e := KeyValueMatchShape(k, t);
      }
    }
  }

  /**
   * When the first quote follows `=` right after a letter other than the
   * key's last one, no key-value match for that key starts before the quote.
   */
  lemma NoKeyValueBeforeQuote(k: string, x: string, r: string)
    requires FirstLetterOnce(k) && '\'' !in x
    requires |x| >= 2 && x[|x| - 1] == '=' && !IsSpace(x[|x| - 2]) && UpperChar(x[|x| - 2]) != UpperChar(k[|k| - 1])
    requires r != "" && r[0] == '\''
    ensures forall i | 0 <= i < |x| :: KeyValueMatch(k, (x + r)[i..]).None?
  {
    forall i | 0 <= i < |x|
      ensures KeyValueMatch(k, (x + r)[i..]).None?
    {
      var t := (x + r)[i..];
      var j := |x| - i;
      assert t[j] == '\'';
      assert t[j - 1] == '=';
      if j >= 2 {
        assert t[j - 2] == x[|x| - 2];
      }
      assert t[..j] == x[i..];
      if KeyValueMatch(k, t).Some? {
        var a, b, e := KeyValueMatchShape(k, t);
        ShapeInterior(k, t, a, b, e);
        ShapeNeighbours(k, t, a, b, e);
      }
    }
  }

  lemma LastLettersDiffer(k1: SecretKey, k2: SecretKey)
    requires k1 != k2
    ensures UpperChar(k1.Name()[|k1.Name()| - 1]) != UpperChar(k2.Name()[|k2.Name()| - 1])
  {
  }

  lemma KeyValueTextSplit(p: string, name: string, v: string, q: string)
    ensures p + KeyValueText(name, v) + q == (p + name + "=") + ("'" + v + "'" + q)
    ensures p + KeyValueText(name, v) + q == p + (name + "" + "=" + "" + "'" + v + "'") + q
  {
  }

  /** The pass for another key leaves a single assignment untouched. */
  lemma KeyPassOther(key2: SecretKey, key: SecretKey, p: string, v: string, q: string)
    requires key2 != key && '\'' !in p && '\'' !in v && '\'' !in q
    ensures ReplaceAll(KeyValue(key2), p + KeyValueText(key.Name(), v) + q) == p + KeyValueText(key.Name(), v) + q
  {
    var name := key.Name();
    var k2 := key2.Name();
    SecretKeyFirstLetterOnce(key);
    SecretKeyFirstLetterOnce(key2);
    LastLettersDiffer(key2, key);
    var x := p + name + "=";
    var r := "'" + v + "'" + q;
    assert x[|x| - 2] == name[|name| - 1];
    NoKeyValueBeforeQuote(k2, x, r);
    ReplaceAllSkips(KeyValue(key2), x, r);
    NoKeyValueInQuoted(k2, v, q);
    assert r + "" == r;
    ReplaceAllSkips(KeyValue(key2), r, "");
    KeyValueTextSplit(p, name, v, q);
  }

  lemma MaskedTextShape(p: string, name: string, q: string)
    ensures p + name + MASKED_VALUE + q == p + KeyValueText(name, "[REDACTED]") + q
  {
    assert name + MASKED_VALUE == KeyValueText(name, "[REDACTED]");
  }

  /** The pass for the assignment's own key masks its value. */
  lemma KeyPassSame(key: SecretKey, p: string, v: string, q: string)
    requires '\'' !in p && '\'' !in v && '\'' !in q
    ensures ReplaceAll(KeyValue(key), p + KeyValueText(key.Name(), v) + q) == p + KeyValueText(key.Name(), "[REDACTED]") + q
  {
    var name := key.Name();
    var pat := KeyValue(key);
    assert AllSpace("");
    KeyValueMasked(key, p, name, "", "", v, q);
    KeyValueTextSplit(p, name, v, q);
    assert ReplaceAll(pat, p + KeyValueText(name, v) + q) == p + name + MASKED_VALUE + ReplaceAll(pat, q);
    ReplaceAllWithoutAnchor(pat, q);
    MaskedTextShape(p, name, q);
  }

  lemma KeyPass(key2: SecretKey, key: SecretKey, p: string, v: string, q: string)
    requires '\'' !in p && '\'' !in v && '\'' !in q
    ensures ReplaceAll(KeyValue(key2), p + KeyValueText(key.Name(), v) + q)
         == p + KeyValueText(key.Name(), if key2 == key then "[REDACTED]" else v) + q
  {
    if key2 == key {
      KeyPassSame(key, p, v, q);
    } else {
      KeyPassOther(key2, key, p, v, q);
    }
  }

  /**
   * A lone `key='value'` assignment in text with no other quote, `@` or `+`
   * comes out of the whole redaction with only its value replaced, whichever
   * of the four keys it uses.
   */
  lemma AssignmentAnchors(key: SecretKey, p: string, v: string, q: string)
    requires '@' !in p && '@' !in v && '@' !in q
    requires '+' !in p && '+' !in v && '+' !in q
    ensures '@' !in p + KeyValueText(key.Name(), v) + q
    ensures '+' !in p + KeyValueText(key.Name(), v) + q
  {
    SecretKeyFirstLetterOnce(key);
  }

  lemma RedactChain(s: string, a: string, b: string, c: string, d: string)
    requires ReplaceAll(KeyValue(Password), s) == a && ReplaceAll(KeyValue(Token), a) == b
    requires ReplaceAll(KeyValue(Secret), b) == c && ReplaceAll(KeyValue(ApiKey), c) == d
    requires '@' !in d && '+' !in d
    ensures RedactSensitiveData(s) == d
  {
    ReplaceAllWithoutAnchor(Email, d);
    ReplaceAllWithoutAnchor(Phone, d);
  }

  lemma RedactAssignment(key: SecretKey, p: string, v: string, q: string)
    requires '\'' !in p && '\'' !in v && '\'' !in q
    requires '@' !in p && '@' !in v && '@' !in q
    requires '+' !in p && '+' !in v && '+' !in q
    ensures RedactSensitiveData(p + KeyValueText(key.Name(), v) + q) == p + KeyValueText(key.Name(), "[REDACTED]") + q
  {
    var before := p + KeyValueText(key.Name(), v) + q;
    var after := p + KeyValueText(key.Name(), "[REDACTED]") + q;
    AssignmentAnchors(key, p, "[REDACTED]", q);
    match key
    case Password =>
      KeyPassSame(key, p, v, q);
      KeyPassOther(Token, key, p, "[REDACTED]", q);
      KeyPassOther(Secret, key, p, "[REDACTED]", q);
      KeyPassOther(ApiKey, key, p, "[REDACTED]", q);
      RedactChain(before, after, after, after, after);
    case Token =>
      KeyPassOther(Password, key, p, v, q);
      KeyPassSame(key, p, v, q);
      KeyPassOther(Secret, key, p, "[REDACTED]", q);
      KeyPassOther(ApiKey, key, p, "[REDACTED]", q);
      RedactChain(before, before, after, after, after);
    case Secret =>
      KeyPassOther(Password, key, p, v, q);
      KeyPassOther(Token, key, p, v, q);
      KeyPassSame(key, p, v, q);
      KeyPassOther(ApiKey, key, p, "[REDACTED]", q);
      RedactChain(before, before, before, after, after);
    case ApiKey =>
      KeyPassOther(Password, key, p, v, q);
      KeyPassOther(Token, key, p, v, q);
      KeyPassOther(Secret, key, p, v, q);
      KeyPassSame(key, p, v, q);
      RedactChain(before, before, before, before, after);
  }
}
