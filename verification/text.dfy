/**
 * Character classes and string utilities shared by the whole model.
 *
 * The source is TypeScript: its regular expressions are transcribed elsewhere as
 * explicit predicates built from the classes below, and the few `String.prototype`
 * methods it relies on (`trim`, `toUpperCase`, `toLowerCase`, `split`, `join`,
 * `startsWith`, `endsWith`, `includes`, `parseInt`, number-to-string) are defined
 * here once.
 */
module Text {

  datatype Option<+T> = None | Some(value: T) {
    function GetOr(default: T): T {
      match this
      case Some(v) => v
      case None => default
    }
  }

  /* ---------------------------------------------------------------------- */
  /* Character classes                                                      */
  /* ---------------------------------------------------------------------- */

  /** The ECMAScript LineTerminator characters; `.` in a regex matches anything else. */
  predicate IsLineBreak(c: char) {
    c == '\n' || c == '\r' || c == '\U{2028}' || c == '\U{2029}'
  }

  /** The ECMAScript WhiteSpace and LineTerminator characters: what `\s` matches and `trim` removes. */
  predicate IsSpace(c: char) {
    || IsLineBreak(c)
    || c == ' ' || c == '\t' || c == '\U{000B}' || c == '\U{000C}'
    || c == '\U{00A0}' || c == '\U{FEFF}' || c == '\U{1680}'
    || ('\U{2000}' <= c <= '\U{200A}')
    || c == '\U{202F}' || c == '\U{205F}' || c == '\U{3000}'
  }

  predicate IsDigit(c: char) {
    '0' <= c <= '9'
  }

  predicate IsAsciiLetter(c: char) {
    ('a' <= c <= 'z') || ('A' <= c <= 'Z')
  }

  /** What `\w` matches (and what `\b` tests) in a regex without the `u` flag. */
  predicate IsWordChar(c: char) {
    IsAsciiLetter(c) || IsDigit(c) || c == '_'
  }

  predicate AllSpace(s: string) {
    forall i | 0 <= i < |s| :: IsSpace(s[i])
  }

  predicate NoLineBreak(s: string) {
    forall i | 0 <= i < |s| :: !IsLineBreak(s[i])
  }

  /* ---------------------------------------------------------------------- */
  /* Case mapping (ASCII letters only)                                      */
  /* ---------------------------------------------------------------------- */

  function UpperChar(c: char): char {
    if 'a' <= c <= 'z' then (c as int - 32) as char else c
  }

  function LowerChar(c: char): char {
    if 'A' <= c <= 'Z' then (c as int + 32) as char else c
  }

  function Upper(s: string): (r: string)
    ensures |r| == |s|
  {
    seq(|s|, i requires 0 <= i < |s| => UpperChar(s[i]))
  }

  function Lower(s: string): (r: string)
    ensures |r| == |s|
  {
    seq(|s|, i requires 0 <= i < |s| => LowerChar(s[i]))
  }

  lemma UpperAppend(a: string, b: string)
    ensures Upper(a + b) == Upper(a) + Upper(b)
  {
    assert forall i | 0 <= i < |a + b| :: Upper(a + b)[i] == (Upper(a) + Upper(b))[i];
  }

  lemma UpperSlice(s: string, i: int, j: int)
    requires 0 <= i <= j <= |s|
    ensures Upper(s[i..j]) == Upper(s)[i..j]
  {
  }

  lemma UpperIdempotent(s: string)
    ensures Upper(Upper(s)) == Upper(s)
  {
  }

  /** Upper-casing keeps every character class the regexes below distinguish, except letter case. */
  lemma UpperCharKeepsClasses(c: char)
    ensures IsSpace(UpperChar(c)) == IsSpace(c)
    ensures IsLineBreak(UpperChar(c)) == IsLineBreak(c)
    ensures IsWordChar(UpperChar(c)) == IsWordChar(c)
    ensures (UpperChar(c) == '-') == (c == '-')
    ensures (UpperChar(c) == '/') == (c == '/')
    ensures (UpperChar(c) == '*') == (c == '*')
  {
  }

  /* ---------------------------------------------------------------------- */
  /* Prefixes, suffixes, substrings                                         */
  /* ---------------------------------------------------------------------- */

  predicate StartsWith(s: string, p: string) {
    |p| <= |s| && s[..|p|] == p
  }

  predicate EndsWith(s: string, p: string) {
    |p| <= |s| && s[|s| - |p|..] == p
  }

  predicate OccursAt(s: string, p: string, i: int) {
    0 <= i && i + |p| <= |s| && s[i..i + |p|] == p
  }

  /** `s.includes(p)`. */
  predicate Contains(s: string, p: string) {
    exists i | 0 <= i <= |s| - |p| :: OccursAt(s, p, i)
  }

  lemma ContainsLeft(a: string, b: string, p: string)
    requires Contains(a, p)
    ensures Contains(a + b, p)
  {
    var i :| 0 <= i <= |a| - |p| && OccursAt(a, p, i);
    assert (a + b)[i..i + |p|] == a[i..i + |p|];
    assert OccursAt(a + b, p, i);
  }

  lemma ContainsRight(a: string, b: string, p: string)
    requires Contains(b, p)
    ensures Contains(a + b, p)
  {
    var i :| 0 <= i <= |b| - |p| && OccursAt(b, p, i);
    assert (a + b)[|a| + i..|a| + i + |p|] == b[i..i + |p|];
    assert OccursAt(a + b, p, |a| + i);
  }

  /** `\b` in front of a word character at `i`. */
  predicate WordStart(s: string, i: int)
    requires 0 <= i <= |s|
  {
    i == 0 || !IsWordChar(s[i - 1])
  }

  /** `\b` after a word character that ends at `j`. */
  predicate WordEnd(s: string, j: int)
    requires 0 <= j <= |s|
  {
    j == |s| || !IsWordChar(s[j])
  }

  /** `s` read from position `i` starts with the upper-case keyword `kw`, ignoring letter case. */
  predicate KeywordAt(s: string, i: int, kw: string) {
    0 <= i && i + |kw| <= |s| && Upper(s[i..i + |kw|]) == kw
  }

  /* ---------------------------------------------------------------------- */
  /* trim                                                                    */
  /* ---------------------------------------------------------------------- */

  /** Length of the maximal run of white space at the start of `s`. */
  function LeadingSpaces(s: string): (n: nat)
    ensures n <= |s|
    ensures AllSpace(s[..n])
    ensures n < |s| ==> !IsSpace(s[n])
  {
    if |s| == 0 || !IsSpace(s[0]) then 0 else 1 + LeadingSpaces(s[1..])
  }

  /** Length of the maximal run of white space at the end of `s`. */
  function TrailingSpaces(s: string): (n: nat)
    ensures n <= |s|
    ensures AllSpace(s[|s| - n..])
    ensures n < |s| ==> !IsSpace(s[|s| - n - 1])
  {
    if |s| == 0 || !IsSpace(s[|s| - 1]) then 0 else 1 + TrailingSpaces(s[..|s| - 1])
  }

  function TrimStart(s: string): string {
    s[LeadingSpaces(s)..]
  }

  function TrimEnd(s: string): string {
    s[..|s| - TrailingSpaces(s)]
  }

  /** `s.trim()`: white space removed at both ends. */
  function Trim(s: string): string {
    TrimEnd(TrimStart(s))
  }

  /** Trimming keeps exactly one contiguous slice, with no white space at either end. */
  lemma TrimIsCore(s: string)
    ensures var t := Trim(s);
      && (exists a | 0 <= a <= |s| - |t| :: s[a..a + |t|] == t && AllSpace(s[..a]) && AllSpace(s[a + |t|..]))
      && (|t| > 0 ==> !IsSpace(t[0]) && !IsSpace(t[|t| - 1]))
  {
    var a := LeadingSpaces(s);
    var u := s[a..];
    var b := TrailingSpaces(u);
    var t := Trim(s);
    assert t == s[a..|s| - b];
    assert s[a + |t|..] == u[|u| - b..];
    if |t| > 0 {
      assert t[0] == s[a];
      assert t[|t| - 1] == u[|u| - b - 1];
    }
  }

  /** Trimming only ever drops white space: a string with a visible character trims to something non-empty. */
  lemma TrimEmptyAllSpace(s: string)
    requires Trim(s) == ""
    ensures AllSpace(s)
  {
    var a := LeadingSpaces(s);
    var u := s[a..];
    assert u[..|u| - TrailingSpaces(u)] == Trim(s);
    assert u[|u| - TrailingSpaces(u)..] == u;
    assert s[..a] == s;
  }

  /**
   * A window of `s` that starts and ends with visible characters survives
   * trimming: it sits at offset `lo - a` of the trimmed text.
   */
  lemma TrimWindow(s: string, lo: nat, hi: nat) returns (a: nat)
    requires lo < hi <= |s|
    requires !IsSpace(s[lo]) && !IsSpace(s[hi - 1])
    ensures a <= lo && hi <= a + |Trim(s)| <= |s|
    ensures Trim(s) == s[a..a + |Trim(s)|]
  {
    a := LeadingSpaces(s);
    var u := s[a..];
    var b := TrailingSpaces(u);
    assert Trim(s) == u[..|u| - b];
  }

  /** Text with visible characters at both ends loses only the white space appended to it. */
  lemma TrimTrailingSpace(t: string)
    requires |t| > 0 && !IsSpace(t[0]) && !IsSpace(t[|t| - 1])
    ensures Trim(t + " ") == t
  {
    var s := t + " ";
    var a := TrimWindow(s, 0, |t|);
    TrimIsCore(s);
    assert s[..|t|] == t;
  }

  /** A window that starts and ends with visible characters keeps its text and its neighbours through trimming. */
  lemma TrimmedWord(s: string, lo: nat, d: string, t: string) returns (i: nat)
    requires t == Trim(s)
    requires |d| > 0 && lo + |d| <= |s| && s[lo..lo + |d|] == d
    requires !IsSpace(d[0]) && !IsSpace(d[|d| - 1])
    requires WordStart(s, lo) && WordEnd(s, lo + |d|)
    ensures i + |d| <= |t| && t[i..i + |d|] == d
    ensures WordStart(t, i) && WordEnd(t, i + |d|)
  {
    assert s[lo] == d[0] && s[lo + |d| - 1] == d[|d| - 1];
    var a := TrimWindow(s, lo, lo + |d|);
    i := lo - a;
    WindowInSlice(s, a, t, lo, d, i);
  }

  /** A word standing in `s` stands, with the same neighbours, in any slice `t` of `s` that contains it. */
  lemma WindowInSlice(s: string, a: nat, t: string, lo: nat, d: string, i: nat)
    requires i + a == lo && lo + |d| <= a + |t| <= |s| && t == s[a..a + |t|] && s[lo..lo + |d|] == d
    requires WordStart(s, lo) && WordEnd(s, lo + |d|)
    ensures i + |d| <= |t| && t[i..i + |d|] == d && WordStart(t, i) && WordEnd(t, i + |d|)
  {
    InnerSlice(s, a, |t|, lo, |d|);
    if i > 0 {
      assert t[i - 1] == s[lo - 1];
    }
    if i + |d| < |t| {
      assert t[i + |d|] == s[lo + |d|];
    }
  }


  /** A slice of a slice is a slice of the whole. */
  lemma InnerSlice(s: string, a: nat, n: nat, lo: nat, m: nat)
    requires a <= lo && lo + m <= a + n <= |s|
    ensures s[a..a + n][lo - a..lo - a + m] == s[lo..lo + m]
  {
    var t := s[a..a + n];
    forall j | lo <= j < lo + m ensures t[j - a] == s[j] {
    }
  }

  /** Upper-casing keeps an upper-case window and the word boundaries around it. */
  lemma UpperWord(t: string, i: nat, d: string)
    requires i + |d| <= |t| && t[i..i + |d|] == d && Upper(d) == d
    requires WordStart(t, i) && WordEnd(t, i + |d|)
    ensures Upper(t)[i..i + |d|] == d
    ensures WordStart(Upper(t), i) && WordEnd(Upper(t), i + |d|)
  {
    UpperSlice(t, i, i + |d|);
    if i > 0 {
      UpperCharKeepsClasses(t[i - 1]);
    }
    if i + |d| < |t| {
      UpperCharKeepsClasses(t[i + |d|]);
    }
  }

  lemma AllSpaceTrimEmpty(s: string)
    requires AllSpace(s)
    ensures Trim(s) == ""
  {
    if |s| > 0 {
      AllSpaceTrimEmpty(s[1..]);
    }
  }

  lemma TrimStartCons(s: string)
    requires |s| > 0 && IsSpace(s[0])
    ensures TrimStart(s) == TrimStart(s[1..])
  {
  }

  /** White space in front of a string never survives `trimStart`. */
  lemma TrimStartSkipsSpace(w: string, s: string)
    requires AllSpace(w)
    ensures TrimStart(w + s) == TrimStart(s)
  {
    if |w| > 0 {
      assert (w + s)[0] == w[0] && IsSpace(w[0]);
      assert (w + s)[1..] == w[1..] + s;
      assert AllSpace(w[1..]) by {
        forall k | 0 <= k < |w| - 1 ensures IsSpace(w[1..][k]) {
          assert w[1..][k] == w[k + 1];
        }
      }
      TrimStartCons(w + s);
      TrimStartSkipsSpace(w[1..], s);
    } else {
      assert w + s == s;
    }
  }

  lemma TrimSkipsSpace(w: string, s: string)
    requires AllSpace(w)
    ensures Trim(w + s) == Trim(s)
  {
    TrimStartSkipsSpace(w, s);
  }

  /** Text after a string that does not start with white space is untouched by `trimStart`. */
  lemma TrimStartAppend(s: string, x: string)
    requires TrimStart(s) != ""
    ensures TrimStart(s + x) == TrimStart(s) + x
  {
    if IsSpace(s[0]) {
      assert (s + x)[1..] == s[1..] + x;
      TrimStartCons(s + x);
      TrimStartAppend(s[1..], x);
    }
  }

  lemma TrimStartEmptyAppend(s: string, x: string)
    requires TrimStart(s) == ""
    ensures TrimStart(s + x) == TrimStart(x)
  {
    if |s| > 0 {
      assert IsSpace(s[0]);
      assert (s + x)[0] == s[0];
      assert (s + x)[1..] == s[1..] + x;
      TrimStartCons(s);
      TrimStartCons(s + x);
      TrimStartEmptyAppend(s[1..], x);
    } else {
      assert s + x == x;
    }
  }

  lemma UpperLeadingSpaces(s: string)
    ensures LeadingSpaces(Upper(s)) == LeadingSpaces(s)
  {
    if |s| > 0 {
      UpperCharKeepsClasses(s[0]);
      assert Upper(s)[1..] == Upper(s[1..]);
      UpperLeadingSpaces(s[1..]);
    }
  }

  lemma UpperTrailingSpaces(s: string)
    ensures TrailingSpaces(Upper(s)) == TrailingSpaces(s)
  {
    if |s| > 0 {
      UpperCharKeepsClasses(s[|s| - 1]);
      assert Upper(s)[..|s| - 1] == Upper(s[..|s| - 1]);
      UpperTrailingSpaces(s[..|s| - 1]);
    }
  }

  lemma UpperTrim(s: string)
    ensures Trim(Upper(s)) == Upper(Trim(s))
    ensures TrimStart(Upper(s)) == Upper(TrimStart(s))
  {
    UpperLeadingSpaces(s);
    UpperTrailingSpaces(TrimStart(s));
    assert TrimStart(Upper(s)) == Upper(TrimStart(s));
  }

  /* ---------------------------------------------------------------------- */
  /* split / join                                                            */
  /* ---------------------------------------------------------------------- */

  function IndexOf(s: string, c: char): (i: nat)
    requires c in s
    ensures i < |s| && s[i] == c && c !in s[..i]
  {
    if s[0] == c then 0 else 1 + IndexOf(s[1..], c)
  }

  /** `s.split(sep)` for a one-character separator; like JavaScript, never empty. */
  function Split(s: string, sep: char): (r: seq<string>)
    ensures |r| >= 1
    ensures forall k | 0 <= k < |r| :: sep !in r[k]
    decreases |s|
  {
    if sep !in s then [s]
    else
      var i := IndexOf(s, sep);
      [s[..i]] + Split(s[i + 1..], sep)
  }

  /** `parts.join(sep)`. */
  function Join(parts: seq<string>, sep: char): string {
    if |parts| == 0 then ""
    else if |parts| == 1 then parts[0]
    else parts[0] + [sep] + Join(parts[1..], sep)
  }

  /** Joining pieces that do not contain the separator and splitting again gives the pieces back. */
  lemma {:induction false} SplitJoin(parts: seq<string>, sep: char)
    requires |parts| >= 1
    requires forall k | 0 <= k < |parts| :: sep !in parts[k]
    ensures Split(Join(parts, sep), sep) == parts
  {
    if |parts| > 1 {
      assert sep !in parts[0];
      SplitAtFirst(parts[0], sep, Join(parts[1..], sep));
      assert forall k | 0 <= k < |parts[1..]| :: sep !in parts[1..][k];
      SplitJoin(parts[1..], sep);
    }
  }

  /** Splitting at a first separator that follows a separator-free piece yields that piece, then the rest split. */
  lemma SplitAtFirst(p: string, sep: char, rest: string)
    requires sep !in p
    ensures Split(p + [sep] + rest, sep) == [p] + Split(rest, sep)
  {
    var s := p + [sep] + rest;
    assert s[|p|] == sep;
    IndexOfAfterFree(p, sep, [sep] + rest);
    assert s == p + ([sep] + rest);
    assert s[..|p|] == p;
    assert s[|p| + 1..] == rest;
  }

  lemma {:induction false} IndexOfAfterFree(p: string, c: char, q: string)
    requires c !in p && q != [] && q[0] == c
    ensures c in p + q && IndexOf(p + q, c) == |p|
  {
    assert (p + q)[|p|] == c;
    if p != [] {
      assert (p + q)[1..] == p[1..] + q;
      IndexOfAfterFree(p[1..], c, q);
    }
  }

  /** Keep the non-empty strings (`.filter(Boolean)`). */
  function NonEmpty(xs: seq<string>): (r: seq<string>)
    ensures forall k | 0 <= k < |r| :: r[k] != "" && r[k] in xs
    ensures |r| <= |xs|
  {
    if |xs| == 0 then []
    else if xs[0] == "" then NonEmpty(xs[1..])
    else [xs[0]] + NonEmpty(xs[1..])
  }

  lemma NonEmptyKeepsAll(xs: seq<string>)
    requires forall k | 0 <= k < |xs| :: xs[k] != ""
    ensures NonEmpty(xs) == xs
  {
  }

  /* ---------------------------------------------------------------------- */
  /* Numbers                                                                 */
  /* ---------------------------------------------------------------------- */

  /** A JavaScript number, restricted to the integral values the model needs, plus NaN. */
  datatype Number = Int(value: int) | NaN {
    /** JavaScript truthiness: 0 and NaN are false. */
    predicate Truthy() {
      Int? && value != 0
    }
  }

  function DigitChar(d: nat): (c: char)
    requires d < 10
    ensures IsDigit(c)
  {
    ('0' as int + d) as char
  }

  function DigitValue(c: char): (d: nat)
    requires IsDigit(c)
    ensures d < 10 && DigitChar(d) == c
  {
    c as int - '0' as int
  }

  /** Decimal rendering of a natural number, most significant digit first. */
  function NatToString(n: nat): (r: string)
    ensures |r| >= 1
    ensures forall k | 0 <= k < |r| :: IsDigit(r[k])
    decreases n
  {
    if n < 10 then [DigitChar(n)] else NatToString(n / 10) + [DigitChar(n % 10)]
  }

  function IntToString(i: int): (r: string)
    ensures |r| >= 1
  {
    if i < 0 then "-" + NatToString(-i) else NatToString(i)
  }

  /** Template-literal rendering `${n}` of a number. */
  function NumberToString(n: Number): (r: string)
    ensures |r| >= 1
  {
    match n
    case Int(i) => IntToString(i)
    case NaN => "NaN"
  }

  /** Length of the maximal run of decimal digits at the start of `s`. */
  function DigitRun(s: string): (n: nat)
    ensures n <= |s|
    ensures forall k | 0 <= k < n :: IsDigit(s[k])
    ensures n < |s| ==> !IsDigit(s[n])
  {
    if |s| == 0 || !IsDigit(s[0]) then 0 else 1 + DigitRun(s[1..])
  }

  /** Value of a string of decimal digits. */
  function DigitsValue(s: string): nat
    requires forall k | 0 <= k < |s| :: IsDigit(s[k])
  {
    if |s| == 0 then 0 else 10 * DigitsValue(s[..|s| - 1]) + DigitValue(s[|s| - 1])
  }

  /** `parseInt(s, 10)`: skip white space, optional sign, longest run of digits; NaN without digits. */
  function ParseInt(s: string): (r: Number)
  {
    var t := TrimStart(s);
    var negative := |t| > 0 && t[0] == '-';
    var body := if |t| > 0 && (t[0] == '-' || t[0] == '+') then t[1..] else t;
    var n := DigitRun(body);
    if n == 0 then NaN
    else
      var v: int := DigitsValue(body[..n]);
      Int(if negative then -v else v)
  }

  lemma {:induction false} DigitsOfNat(n: nat)
    ensures DigitsValue(NatToString(n)) == n
    decreases n
  {
    if n >= 10 {
      var s := NatToString(n);
      assert s[..|s| - 1] == NatToString(n / 10);
      DigitsOfNat(n / 10);
    }
  }

  lemma {:induction false} DigitRunAll(s: string)
    requires forall k | 0 <= k < |s| :: IsDigit(s[k])
    ensures DigitRun(s) == |s|
  {
    if |s| > 0 {
      DigitRunAll(s[1..]);
    }
  }

  /** A run of `n` digits followed by a non-digit is the run `DigitRun` finds. */
  lemma {:induction false} DigitRunStops(s: string, n: nat)
    requires n < |s| && !IsDigit(s[n])
    requires forall k | 0 <= k < n :: IsDigit(s[k])
    ensures DigitRun(s) == n
  {
    if n > 0 {
      DigitRunStops(s[1..], n - 1);
    }
  }

  /** A rendered number followed by text that does not start with a digit parses back as the number. */
  lemma ParseIntNatPrefix(n: nat, rest: string)
    requires rest == [] || !IsDigit(rest[0])
    ensures ParseInt(NatToString(n) + rest) == Int(n)
  {
    var d := NatToString(n);
    var s := d + rest;
    assert s[0] == d[0];
    assert !IsSpace(s[0]) && s[0] != '-' && s[0] != '+';
    assert TrimStart(s) == s;
    assert s[..|d|] == d;
    if rest == [] {
      DigitRunAll(s);
    } else {
      DigitRunStops(s, |d|);
    }
    DigitsOfNat(n);
  }

  /** Rendering an integer and parsing it back gives the integer. */
  lemma ParseIntRoundTrip(i: int)
    ensures ParseInt(IntToString(i)) == Int(i)
  {
    var s := IntToString(i);
    var d := NatToString(if i < 0 then -i else i);
    assert !IsSpace(s[0]);
    assert TrimStart(s) == s;
    var body := if s[0] == '-' then s[1..] else s;
    assert body == d;
    DigitRunAll(d);
    assert d[..|d|] == d;
    DigitsOfNat(if i < 0 then -i else i);
  }
}
