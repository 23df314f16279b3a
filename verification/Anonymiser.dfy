/** The log anonymiser (`logwrapper.cpp`, `formatter.hpp`): three rewriting passes, each replacing
    the leftmost non-overlapping matches of a pattern. */
module Anonymiser {
  import opened Numerals
  import opened Lists

  // ---------- the formatters ----------

  /** `boost::split` at one delimiter. */
  function Split(s: string, delim: char): (parts: seq<string>)
    ensures |parts| >= 1
  {
    if s == [] then [""]
    else
      var rest := Split(s[1..], delim);
      if s[0] == delim then [""] + rest else [[s[0]] + rest[0]] + rest[1..]
  }

  /** Every second character, from the first on, becomes a star. */
  function MaskEven(s: string): (m: string)
    ensures |m| == |s|
    ensures forall i | 0 <= i < |s| :: m[i] == if i % 2 == 0 then '*' else s[i]
  {
    seq(|s|, i requires 0 <= i < |s| => if i % 2 == 0 then '*' else s[i])
  }

  /** A string without its occurrences of c. */
  function Without(s: string, c: char): string {
    if s == [] then [] else (if s[0] == c then [] else [s[0]]) + Without(s[1..], c)
  }

  function JoinMasked(parts: seq<string>, delim: char): string {
    if parts == [] then "" else [delim] + MaskEven(parts[0]) + JoinMasked(parts[1..], delim)
  }

  function JoinQuoted(parts: seq<string>): string {
    if parts == [] then ""
    else ":\"" + MaskEven(Without(Without(parts[0], ' '), '\"')) + "\"" + JoinQuoted(parts[1..])
  }

  function FormatAt(text: string, delim: char): string {
    var parts := Split(text, delim);
    parts[0] + JoinMasked(parts[1..], delim)
  }

  function FormatQuoted(text: string): string {
    var parts := Split(text, ':');
    Without(parts[0], ' ') + JoinQuoted(parts[1..])
  }

  method ReplaceEven(s: string) returns (r: string)
    ensures r == MaskEven(s)
  {
    r := "";
    var idx := 0;
    while idx < |s|
      invariant idx <= |s| && r == MaskEven(s[..idx])
    {
      r := r + [if idx % 2 == 0 then '*' else s[idx]];
      idx := idx + 1;
    }
    assert s[..|s|] == s;
  }

  lemma JoinMaskedSnoc(parts: seq<string>, p: string, delim: char)
    ensures JoinMasked(parts + [p], delim) == JoinMasked(parts, delim) + ([delim] + MaskEven(p))
  {
    if parts == [] {
      assert [p][1..] == [] && parts + [p] == [p];
    } else {
      assert (parts + [p])[1..] == parts[1..] + [p];
      JoinMaskedSnoc(parts[1..], p, delim);
    }
  }

  lemma JoinQuotedSnoc(parts: seq<string>, p: string)
    ensures JoinQuoted(parts + [p])
         == JoinQuoted(parts) + (":\"" + MaskEven(Without(Without(p, ' '), '\"')) + "\"")
  {
    if parts == [] {
      assert [p][1..] == [] && parts + [p] == [p];
    } else {
      assert (parts + [p])[1..] == parts[1..] + [p];
      JoinQuotedSnoc(parts[1..], p);
    }
  }

  /** `Formatter` and `UrlFormatter` differ only in the delimiter. */
  method DelimitedFormatter(orig: string, delim: char) returns (anonymized: string)
    ensures anonymized == FormatAt(orig, delim)
  {
    var strs := Split(orig, delim);
    anonymized := "";
    var i := 1;
    while i < |strs|
      invariant 1 <= i <= |strs|
      invariant anonymized == JoinMasked(strs[1..i], delim)
    {
      var masked := ReplaceEven(strs[i]);
      JoinMaskedSnoc(strs[1..i], strs[i], delim);
      assert strs[1..i] + [strs[i]] == strs[1..i + 1];
      anonymized := anonymized + ([delim] + masked);
      i := i + 1;
    }
    assert strs[1..|strs|] == strs[1..];
    anonymized := strs[0] + anonymized;
  }

  function IndexOf(s: string, c: char): (i: nat)
    requires c in s
    ensures i < |s| && s[i] == c
  {
    if s[0] == c then 0 else 1 + IndexOf(s[1..], c)
  }

  lemma {:induction false} EraseKeepsRest(s: string, i: nat)
    requires i < |s|
    ensures Without(s[..i] + s[i + 1..], s[i]) == Without(s, s[i])
  {
    if i == 0 {
      assert s[..0] + s[1..] == s[1..];
    } else {
      var t := s[..i] + s[i + 1..];
      assert t[1..] == s[1..][..i - 1] + s[1..][i..];
      EraseKeepsRest(s[1..], i - 1);
    }
  }

  lemma {:induction false} WithoutNothing(s: string, c: char)
    requires c !in s
    ensures Without(s, c) == s
  {
    if s != [] { WithoutNothing(s[1..], c); }
  }

  /** The erase loops of `JsonFormatter`: find, erase, find again. */
  method EraseAll(s: string, c: char) returns (r: string)
    ensures r == Without(s, c)
  {
    r := s;
    while c in r
      invariant Without(r, c) == Without(s, c)
      decreases |r|
    {
      var i := IndexOf(r, c);
      EraseKeepsRest(r, i);
      r := r[..i] + r[i + 1..];
    }
    WithoutNothing(r, c);
  }

  method JsonFormatter(orig: string) returns (anonymized: string)
    ensures anonymized == FormatQuoted(orig)
  {
    var strs := Split(orig, ':');
    var first := EraseAll(strs[0], ' ');
    anonymized := "";
    var i := 1;
    while i < |strs|
      invariant 1 <= i <= |strs|
      invariant anonymized == JoinQuoted(strs[1..i])
    {
      var it := EraseAll(strs[i], ' ');
      it := EraseAll(it, '\"');
      it := ReplaceEven(it);
      JoinQuotedSnoc(strs[1..i], strs[i]);
      assert strs[1..i] + [strs[i]] == strs[1..i + 1];
      anonymized := anonymized + (":\"" + it + "\"");
      i := i + 1;
    }
    assert strs[1..|strs|] == strs[1..];
    anonymized := first + anonymized;
  }

  // ---------- the patterns ----------

  predicate StartsName(s: string) {
    && |s| >= 4
    && ((s[0] == 'i' && s[1] == 'm' && s[2] == 's' && s[3] == 'i')
        || (s[0] == 'I' && s[1] == 'M' && s[2] == 'S' && s[3] == 'I'))
  }

  function DigitRun(s: string): (n: nat)
    ensures n <= |s| && AllDigits(s[..n]) && (n < |s| ==> !IsDigit(s[n]))
  {
    if s != [] && IsDigit(s[0]) then
      var n := 1 + DigitRun(s[1..]);
      assert forall i | 0 < i < n :: s[..n][i] == s[1..][..n - 1][i - 1];
      n
    else 0
  }

  function SpaceRun(s: string): (n: nat)
    ensures n <= |s| && (forall i | 0 <= i < n :: s[i] == ' ') && (n < |s| ==> s[n] != ' ')
  {
    if s != [] && s[0] == ' ' then 1 + SpaceRun(s[1..]) else 0
  }

  function Min(a: nat, b: nat): nat {
    if a < b then a else b
  }

  /** Length of a match of (imsi|IMSI)-[0-9]{5,15} at the head of s, 0 if there is none. */
  function Dash(s: string): (n: nat)
    ensures n <= |s|
  {
    if StartsName(s) && |s| > 4 && s[4] == '-' && DigitRun(s[5..]) >= 5
    then 5 + Min(15, DigitRun(s[5..])) else 0
  }

  /** Position of the '=' of (imsi|IMSI) *= *, if the head of s gets that far. */
  function UrlSign(s: string): (e: nat)
    requires |s| >= 4
    ensures 4 <= e <= |s|
  {
    4 + SpaceRun(s[4..])
  }

  /** Where the digits of (imsi|IMSI) *= * must start, 0 if the head of s does not get that far. */
  function UrlValue(s: string): (v: nat)
    ensures v <= |s| && (v == 0 || v >= 5)
  {
    if !StartsName(s) || UrlSign(s) == |s| || s[UrlSign(s)] != '=' then 0
    else UrlSign(s) + 1 + SpaceRun(s[UrlSign(s) + 1..])
  }

  /** (imsi|IMSI) *= *[0-9]{5,15} */
  function Url(s: string): (n: nat)
    ensures n <= |s|
  {
    var v := UrlValue(s);
    if v > 0 && DigitRun(s[v..]) >= 5 then v + Min(15, DigitRun(s[v..])) else 0
  }

  /** "(imsi|IMSI)" *: *"[0-9]{5,15}": the position of the quote that opens the digits, 0 if the head
      of s does not get that far. */
  function ValueQuote(s: string): (q: nat)
    ensures q < |s| || q == 0
    ensures q == 0 || q >= 7
  {
    if |s| < 6 || s[0] != '\"' || !StartsName(s[1..]) || s[5] != '\"' then 0
    else
      var c := 6 + SpaceRun(s[6..]);
      if c == |s| || s[c] != ':' then 0
      else
        var q := c + 1 + SpaceRun(s[c + 1..]);
        if q == |s| || s[q] != '\"' then 0 else q
  }

  function Quoted(s: string): (n: nat)
    ensures n <= |s|
  {
    var q := ValueQuote(s);
    if q == 0 then 0
    else
      var e := q + 1 + DigitRun(s[q + 1..]);
      if 5 <= e - q - 1 <= 15 && e < |s| && s[e] == '\"' then e + 1 else 0
  }

  datatype Pattern = DashForm | UrlForm | QuotedForm

  function MatchLength(p: Pattern, s: string): (n: nat)
    ensures n <= |s|
  {
    match p
    case DashForm => Dash(s)
    case UrlForm => Url(s)
    case QuotedForm => Quoted(s)
  }

  function Format(p: Pattern, text: string): string {
    match p
    case DashForm => FormatAt(text, '-')
    case UrlForm => FormatAt(text, '=')
    case QuotedForm => FormatQuoted(text)
  }

  /** `boost::regex_replace` with a formatter: matches are taken from the left and do not overlap. */
  function Replace(p: Pattern, s: string): string
    decreases |s|
  {
    if s == [] then []
    else
      var n := MatchLength(p, s);
      if n > 0 then Format(p, s[..n]) + Replace(p, s[n..]) else [s[0]] + Replace(p, s[1..])
  }

  function AnonymizeString(s: string): string {
    Replace(DashForm, s)
  }

  function AnonymizeJson(s: string): string {
    Replace(QuotedForm, Replace(UrlForm, AnonymizeString(s)))
  }

  ghost predicate Free(p: Pattern, s: string) {
    forall k | 0 <= k <= |s| :: MatchLength(p, s[k..]) == 0
  }

  // ---------- what a formatter does to a match ----------

  lemma {:induction false} SplitNowhere(s: string, delim: char)
    requires delim !in s
    ensures Split(s, delim) == [s]
  {
    if s != [] {
      SplitNowhere(s[1..], delim);
      assert [s[0]] + s[1..] == s;
    }
  }

  lemma {:induction false} SplitOnce(x: string, delim: char, y: string)
    requires delim !in x && delim !in y
    ensures Split(x + [delim] + y, delim) == [x, y]
  {
    var s := x + [delim] + y;
    if x == [] {
      assert s[1..] == y;
      SplitNowhere(y, delim);
    } else {
      assert s[1..] == x[1..] + [delim] + y;
      SplitOnce(x[1..], delim, y);
      assert [s[0]] + x[1..] == x;
    }
  }

  lemma FormatOnce(x: string, delim: char, y: string)
    requires delim !in x && delim !in y
    ensures FormatAt(x + [delim] + y, delim) == x + [delim] + MaskEven(y)
  {
    SplitOnce(x, delim, y);
    JoinOne(y, delim);
    assert [x, y][1..] == [y];
    Regroup(x, [delim], MaskEven(y));
  }

  lemma JoinOne(y: string, delim: char)
    ensures JoinMasked([y], delim) == [delim] + MaskEven(y)
  {
    assert [y][1..] == [];
  }

  // ---------- the shape of a match, position by position ----------

  predicate AllSpaces(s: string) {
    forall i | 0 <= i < |s| :: s[i] == ' '
  }

  predicate IsDash(s: string, n: nat) {
    && 10 <= n <= |s| && StartsName(s) && s[4] == '-' && AllDigits(s[5..n])
  }

  predicate IsUrl(s: string, e: nat, v: nat, n: nat) {
    && 4 <= e < v && v + 5 <= n <= |s| && StartsName(s)
    && AllSpaces(s[4..e]) && s[e] == '=' && AllSpaces(s[e + 1..v]) && AllDigits(s[v..n])
  }

  predicate IsQuoted(s: string, c: nat, q: nat, n: nat) {
    && 6 <= c < q && q + 7 <= n <= q + 17 && n <= |s|
    && s[0] == '\"' && StartsName(s[1..]) && s[5] == '\"'
    && AllSpaces(s[6..c]) && s[c] == ':' && AllSpaces(s[c + 1..q]) && s[q] == '\"'
    && AllDigits(s[q + 1..n - 1]) && s[n - 1] == '\"'
  }

  lemma {:induction false} DigitRunIs(s: string, n: nat)
    requires n <= |s| && AllDigits(s[..n])
    ensures DigitRun(s) >= n
    ensures n < |s| && !IsDigit(s[n]) ==> DigitRun(s) == n
  {
    var r := DigitRun(s);
    assert forall i | 0 <= i < n :: s[i] == s[..n][i];
    assert forall i | 0 <= i < r :: s[i] == s[..r][i];
  }

  lemma SpaceRunIs(s: string, n: nat)
    requires n < |s| && AllSpaces(s[..n]) && s[n] != ' '
    ensures SpaceRun(s) == n
  {
    var r := SpaceRun(s);
    assert forall i | 0 <= i < n :: s[i] == s[..n][i];
  }

  lemma DigitRunFrom(s: string, a: nat, b: nat)
    requires a <= b <= |s| && AllDigits(s[a..b])
    ensures DigitRun(s[a..]) >= b - a
    ensures b < |s| && !IsDigit(s[b]) ==> DigitRun(s[a..]) == b - a
  {
    assert s[a..][..b - a] == s[a..b];
    DigitRunIs(s[a..], b - a);
  }

  lemma SpaceRunFrom(s: string, a: nat, b: nat)
    requires a <= b < |s| && AllSpaces(s[a..b]) && s[b] != ' '
    ensures SpaceRun(s[a..]) == b - a
  {
    assert s[a..][..b - a] == s[a..b];
    SpaceRunIs(s[a..], b - a);
  }

  lemma DigitsOfRun(s: string, a: nat, n: nat)
    requires a <= |s| && n <= DigitRun(s[a..])
    ensures AllDigits(s[a..a + n])
  {
    var r := DigitRun(s[a..]);
    var d := s[a..a + n];
    forall i | 0 <= i < n ensures IsDigit(d[i]) {
      assert d[i] == s[a..][..r][i];
    }
  }

  lemma SpacesOfRun(s: string, a: nat)
    requires a <= |s|
    ensures AllSpaces(s[a..a + SpaceRun(s[a..])])
  {
    var n := SpaceRun(s[a..]);
    assert forall i | 0 <= i < n :: s[a..a + n][i] == s[a..][i];
  }

  lemma DashShape(s: string)
    ensures Dash(s) > 0 ==> IsDash(s, Dash(s))
  {
    if Dash(s) > 0 { DigitsOfRun(s, 5, Dash(s) - 5); }
  }

  lemma DashOfShape(s: string, n: nat)
    requires IsDash(s, n)
    ensures Dash(s) > 0
  {
    DigitRunFrom(s, 5, n);
  }

  lemma UrlValueShape(s: string)
    requires UrlValue(s) > 0
    ensures var e, v := UrlSign(s), UrlValue(s);
      StartsName(s) && e < v && AllSpaces(s[4..e]) && s[e] == '=' && AllSpaces(s[e + 1..v])
  {
    SpacesOfRun(s, 4);
    SpacesOfRun(s, UrlSign(s) + 1);
  }

  lemma UrlShape(s: string) returns (e: nat, v: nat)
    requires Url(s) > 0
    ensures IsUrl(s, e, v, Url(s)) && e == UrlSign(s)
  {
    e, v := UrlSign(s), UrlValue(s);
    UrlValueShape(s);
    DigitsOfRun(s, v, Url(s) - v);
  }

  lemma UrlValueIs(s: string, e: nat, v: nat)
    requires 4 <= e < v < |s| && StartsName(s)
    requires AllSpaces(s[4..e]) && s[e] == '=' && AllSpaces(s[e + 1..v]) && s[v] != ' '
    ensures UrlValue(s) == v
  {
    SpaceRunFrom(s, 4, e);
    SpaceRunFrom(s, e + 1, v);
  }

  lemma FirstDigit(s: string, a: nat, b: nat)
    requires a < b <= |s| && AllDigits(s[a..b])
    ensures IsDigit(s[a])
  {
    assert s[a] == s[a..b][0];
  }

  lemma UrlOfShape(s: string, e: nat, v: nat, n: nat)
    requires IsUrl(s, e, v, n)
    ensures Url(s) > 0
  {
    FirstDigit(s, v, n);
    UrlValueIs(s, e, v);
    DigitRunFrom(s, v, n);
  }

  lemma ValueQuoteShape(s: string) returns (c: nat)
    requires ValueQuote(s) > 0
    ensures var q := ValueQuote(s);
      && 6 <= c < q < |s|
      && s[0] == '\"' && StartsName(s[1..]) && s[5] == '\"'
      && AllSpaces(s[6..c]) && s[c] == ':' && AllSpaces(s[c + 1..q]) && s[q] == '\"'
  {
    c := 6 + SpaceRun(s[6..]);
    SpacesOfRun(s, 6);
    SpacesOfRun(s, c + 1);
  }

  lemma QuotedShape(s: string) returns (c: nat, q: nat)
    requires Quoted(s) > 0
    ensures IsQuoted(s, c, q, Quoted(s))
  {
    q := ValueQuote(s);
    QuotedEnds(s);
    QuotedTail(s, q, Quoted(s));
    c := ValueQuoteShape(s);
    HeadAndTail(s, c, q, Quoted(s));
  }

  lemma QuotedTail(s: string, q: nat, n: nat)
    requires 0 < q && q + 7 <= n <= |s| && DigitRun(s[q + 1..]) == n - q - 2
    ensures AllDigits(s[q + 1..n - 1])
  {
    DigitsBetween(s, q + 1, n - 1);
  }

  lemma HeadAndTail(s: string, c: nat, q: nat, n: nat)
    requires 6 <= c < q < |s| && q + 7 <= n <= q + 17 && n <= |s|
    requires s[0] == '\"' && StartsName(s[1..]) && s[5] == '\"'
    requires AllSpaces(s[6..c]) && s[c] == ':' && AllSpaces(s[c + 1..q]) && s[q] == '\"'
    requires s[n - 1] == '\"' && AllDigits(s[q + 1..n - 1])
    ensures IsQuoted(s, c, q, n)
  {
  }

  lemma DigitsBetween(s: string, a: nat, b: nat)
    requires a <= b <= |s| && DigitRun(s[a..]) == b - a
    ensures AllDigits(s[a..b])
  {
    DigitsOfRun(s, a, b - a);
  }

  lemma QuotedEnds(s: string)
    requires Quoted(s) > 0
    ensures var q, n := ValueQuote(s), Quoted(s);
      q >= 7 && q + 7 <= n <= q + 17 && n <= |s| && s[n - 1] == '\"' && DigitRun(s[q + 1..]) == n - q - 2
  {
  }

  lemma QuotedOfShape(s: string, c: nat, q: nat, n: nat)
    requires IsQuoted(s, c, q, n)
    ensures Quoted(s) == n
  {
    ValueQuoteIs(s, c, q);
    DigitRunFrom(s, q + 1, n - 1);
    QuotedIs(s, q, n - 1);
  }

  lemma QuotedIs(s: string, q: nat, e: nat)
    requires ValueQuote(s) == q > 0 && q + 6 <= e <= q + 16 && e < |s| && s[e] == '\"'
    requires DigitRun(s[q + 1..]) == e - q - 1
    ensures Quoted(s) == e + 1
  {
  }

  lemma ValueQuoteIs(s: string, c: nat, q: nat)
    requires 6 <= c < q < |s|
    requires s[0] == '\"' && StartsName(s[1..]) && s[5] == '\"'
    requires AllSpaces(s[6..c]) && s[c] == ':' && AllSpaces(s[c + 1..q]) && s[q] == '\"'
    ensures ValueQuote(s) == q
  {
    SpaceRunFrom(s, 6, c);
    SpaceRunFrom(s, c + 1, q);
  }

  // ---------- stars only ----------

  /** t is s with some characters replaced by stars. */
  ghost predicate Starred(t: string, s: string) {
    |t| == |s| && forall i | 0 <= i < |s| :: t[i] == s[i] || t[i] == '*'
  }

  lemma StarredSlice(t: string, s: string, a: nat, b: nat)
    requires Starred(t, s) && a <= b <= |s|
    ensures Starred(t[a..b], s[a..b])
    ensures AllDigits(t[a..b]) ==> s[a..b] == t[a..b]
    ensures AllSpaces(t[a..b]) ==> s[a..b] == t[a..b]
  {
    assert forall i | 0 <= i < b - a :: t[a..b][i] == t[a + i] && s[a..b][i] == s[a + i];
    assert AllDigits(t[a..b]) ==> forall i | 0 <= i < b - a :: IsDigit(t[a..b][i]);
  }

  lemma StarsMakeNoDash(t: string, s: string)
    requires Starred(t, s) && Dash(t) > 0
    ensures Dash(s) > 0
  {
    DashShape(t);
    StarredSlice(t, s, 5, Dash(t));
    DashOfShape(s, Dash(t));
  }

  lemma StarsMakeNoUrl(t: string, s: string)
    requires Starred(t, s) && Url(t) > 0
    ensures Url(s) > 0
  {
    var e, v := UrlShape(t);
    StarredSlice(t, s, 4, e);
    StarredSlice(t, s, e + 1, v);
    StarredSlice(t, s, v, Url(t));
    UrlOfShape(s, e, v, Url(t));
  }

  /** What matches after starring matched before, at the same place. */
  lemma StarsMakeNoMatch(p: Pattern, t: string, s: string)
    requires p != QuotedForm && Starred(t, s) && MatchLength(p, t) > 0
    ensures MatchLength(p, s) > 0
  {
    if p == DashForm { StarsMakeNoDash(t, s); } else { StarsMakeNoUrl(t, s); }
  }

  // ---------- the two passes that keep the length ----------

  /** The delimiter of a match of the first two forms. */
  function Sign(p: Pattern, s: string): (d: nat)
    requires |s| >= 4
    ensures 4 <= d <= |s|
  {
    if p == DashForm then 4 else UrlSign(s)
  }

  /** All of a match behind its delimiter is digits, or blanks before digits. */
  lemma AfterSign(p: Pattern, s: string)
    requires p != QuotedForm && MatchLength(p, s) > 0
    ensures var d, n := Sign(p, s), MatchLength(p, s);
      && d + 5 < n && StartsName(s) && s[d] == (if p == DashForm then '-' else '=')
      && (forall i | 4 <= i < d :: s[i] == ' ')
      && (forall i | d < i < n :: s[i] == ' ' || IsDigit(s[i]))
      && (p == DashForm ==> forall i | d < i < n :: IsDigit(s[i]))
  {
    if p == DashForm {
      DashShape(s);
      AfterDash(s, Dash(s));
    } else {
      var e, v := UrlShape(s);
      AfterEquals(s, e, v, Url(s));
    }
  }

  lemma AfterDash(s: string, n: nat)
    requires IsDash(s, n)
    ensures forall i | 4 < i < n :: IsDigit(s[i])
  {
    forall i | 4 < i < n ensures IsDigit(s[i]) { assert s[i] == s[5..n][i - 5]; }
  }

  lemma AfterEquals(s: string, e: nat, v: nat, n: nat)
    requires IsUrl(s, e, v, n)
    ensures forall i | 4 <= i < e :: s[i] == ' '
    ensures forall i | e < i < n :: s[i] == ' ' || IsDigit(s[i])
  {
    forall i | 4 <= i < e ensures s[i] == ' ' { assert s[i] == s[4..e][i - 4]; }
    forall i | e < i < n ensures s[i] == ' ' || IsDigit(s[i]) {
      if i < v { assert s[i] == s[e + 1..v][i - e - 1]; } else { assert s[i] == s[v..n][i - v]; }
    }
  }

  /** The formatter leaves a match as it is up to the delimiter, stars the next character and every
      second one after it. */
  lemma FormatOfMatch(p: Pattern, s: string)
    requires p != QuotedForm && MatchLength(p, s) > 0
    ensures var d, n := Sign(p, s), MatchLength(p, s);
      && d < n && Format(p, s[..n]) == s[..d + 1] + MaskEven(s[d + 1..n])
  {
    AfterSign(p, s);
    var d, n := Sign(p, s), MatchLength(p, s);
    OneSign(p, s);
    FormatOnce(s[..d], s[d], s[d + 1..n]);
    SplitAtSign(s, d, n);
  }

  lemma SplitAtSign(s: string, d: nat, n: nat)
    requires d < n <= |s|
    ensures s[..n] == s[..d] + [s[d]] + s[d + 1..n] && s[..d + 1] == s[..d] + [s[d]]
  {
  }

  lemma OneSign(p: Pattern, s: string)
    requires p != QuotedForm && MatchLength(p, s) > 0
    ensures var d, n := Sign(p, s), MatchLength(p, s);
      d < n && s[d] !in s[..d] && s[d] !in s[d + 1..n]
  {
    AfterSign(p, s);
    var d, n := Sign(p, s), MatchLength(p, s);
    NotBetween(s, 0, d, s[d]);
    NotBetween(s, d + 1, n, s[d]);
    assert s[0..d] == s[..d];
  }

  lemma NotBetween(s: string, a: nat, b: nat, c: char)
    requires a <= b <= |s| && forall i | a <= i < b :: s[i] != c
    ensures c !in s[a..b]
  {
  }

  lemma FormatStars(p: Pattern, s: string)
    requires p != QuotedForm && MatchLength(p, s) > 0
    ensures var n := MatchLength(p, s);
      && Starred(Format(p, s[..n]), s[..n])
      && forall i | 0 <= i < n :: Format(p, s[..n])[i] != s[i] ==> s[i] == ' ' || IsDigit(s[i])
    ensures p == DashForm ==> var n := Dash(s);
      forall i | 0 <= i < n :: Format(p, s[..n])[i] != s[i] ==> IsDigit(s[i])
  {
    AfterSign(p, s);
    FormatOfMatch(p, s);
    var d, n := Sign(p, s), MatchLength(p, s);
    var f := Format(p, s[..n]);
    forall i | 0 <= i < n ensures f[i] == s[i] || (i > d && f[i] == '*') {
      FormattedCharacter(s, d, n, f, i);
    }
  }

  lemma NoDigitsNoDash(t: string)
    requires |t| > 5 && t[5] == '*'
    ensures Dash(t) == 0
  {
    assert t[5..][0] == '*';
  }

  lemma NoDigitsNoUrl(t: string, d: nat)
    requires 4 <= d < |t| - 1 && AllSpaces(t[4..d]) && t[d] == '=' && t[d + 1] == '*'
    ensures Url(t) == 0
  {
    if UrlValue(t) > 0 {
      SpaceRunFrom(t, 4, d);
      SpaceRunFrom(t, d + 1, d + 1);
      assert t[d + 1..][0] == '*';
    }
  }

  /** What follows the formatted text does not matter: its head does not match any more. */
  lemma FormattedHeadFree(p: Pattern, s: string, rest: string)
    requires p != QuotedForm && MatchLength(p, s) > 0
    ensures MatchLength(p, Format(p, s[..MatchLength(p, s)]) + rest) == 0
  {
    AfterSign(p, s);
    FormatOfMatch(p, s);
    var d, n := Sign(p, s), MatchLength(p, s);
    var t := Format(p, s[..n]) + rest;
    HeadAndStar(s, d, n, rest, t);
    if p == DashForm {
      NoDigitsNoDash(t);
    } else {
      assert forall i | 0 <= i < d - 4 :: t[4..d][i] == s[4 + i];
      NoDigitsNoUrl(t, d);
    }
  }

  lemma HeadAndStar(s: string, d: nat, n: nat, rest: string, t: string)
    requires d + 1 < n <= |s| && t == (s[..d + 1] + MaskEven(s[d + 1..n])) + rest
    ensures |t| > d + 1 && t[d + 1] == '*' && forall i | 0 <= i <= d :: t[i] == s[i]
  {
    assert t[d + 1] == MaskEven(s[d + 1..n])[0];
  }

  /** No name starts inside a match. */
  lemma NoNameInside(p: Pattern, s: string, k: nat)
    requires p != QuotedForm && 0 < k < MatchLength(p, s)
    ensures !StartsName(s[k..])
  {
    AfterSign(p, s);
    var d := Sign(p, s);
    assert s[k..][0] == s[k];
    assert s[k..][1..] == s[k + 1..];
    if k + 1 < |s| { assert s[k..][1] == s[k + 1]; }
  }

  /** What a pass does first: format a match, or copy one character. */
  function Head(p: Pattern, s: string): string
    requires s != []
  {
    if MatchLength(p, s) > 0 then Format(p, s[..MatchLength(p, s)]) else [s[0]]
  }

  function Consumed(p: Pattern, s: string): (m: nat)
    requires s != []
    ensures 0 < m <= |s|
  {
    if MatchLength(p, s) > 0 then MatchLength(p, s) else 1
  }

  lemma ReplaceUnfolds(p: Pattern, s: string)
    requires s != []
    ensures Replace(p, s) == Head(p, s) + Replace(p, s[Consumed(p, s)..])
  {
  }

  lemma HeadStars(p: Pattern, s: string)
    requires p != QuotedForm && s != []
    ensures Starred(Head(p, s), s[..Consumed(p, s)])
  {
    if MatchLength(p, s) > 0 { FormatStars(p, s); }
  }

  lemma {:induction false} PassStars(p: Pattern, s: string)
    requires p != QuotedForm
    ensures Starred(Replace(p, s), s)
    decreases |s|
  {
    if s != [] {
      var m := Consumed(p, s);
      ReplaceUnfolds(p, s);
      HeadStars(p, s);
      PassStars(p, s[m..]);
      StarredJoin(Head(p, s), Replace(p, s[m..]), s, m);
    }
  }

  /** A pass of the first two forms stars some characters, keeps the length, and leaves no match of
      its form. */
  lemma {:induction false} PassRemovesMatches(p: Pattern, s: string)
    requires p != QuotedForm
    ensures Starred(Replace(p, s), s)
    ensures Free(p, Replace(p, s))
    decreases |s|
  {
    PassStars(p, s);
    if s != [] {
      var m := Consumed(p, s);
      PassRemovesMatches(p, s[m..]);
      PassFreeFrom(p, s);
    }
  }

  lemma PassFreeFrom(p: Pattern, s: string)
    requires p != QuotedForm && s != [] && Starred(Replace(p, s), s)
    requires Free(p, Replace(p, s[Consumed(p, s)..]))
    ensures Free(p, Replace(p, s))
  {
    forall k | 0 <= k <= |Replace(p, s)| ensures MatchLength(p, Replace(p, s)[k..]) == 0 { PassFreeAt(p, s, k); }
  }

  lemma PassFreeAt(p: Pattern, s: string, k: nat)
    requires p != QuotedForm && s != [] && Starred(Replace(p, s), s) && k <= |s|
    requires Free(p, Replace(p, s[Consumed(p, s)..]))
    ensures MatchLength(p, Replace(p, s)[k..]) == 0
  {
    var t, m := Replace(p, s), Consumed(p, s);
    if k >= m {
      HeadStars(p, s);
      ReplaceUnfolds(p, s);
      TailFree(p, Head(p, s), Replace(p, s[m..]), k);
    } else {
      StarredSuffix(t, s, k);
      HeadFree(p, s, k, t);
    }
  }

  lemma StarredSuffix(t: string, s: string, k: nat)
    requires Starred(t, s) && k <= |s|
    ensures Starred(t[k..], s[k..])
  {
  }

  lemma StarredJoin(h: string, r: string, s: string, m: nat)
    requires m <= |s| && Starred(h, s[..m]) && Starred(r, s[m..])
    ensures Starred(h + r, s)
  {
    forall i | 0 <= i < |s| ensures (h + r)[i] == s[i] || (h + r)[i] == '*' {
      if i < m { assert s[..m][i] == s[i]; } else { assert s[m..][i - m] == s[i]; }
    }
  }

  lemma TailFree(p: Pattern, h: string, r: string, k: nat)
    requires Free(p, r) && |h| <= k <= |h + r|
    ensures MatchLength(p, (h + r)[k..]) == 0
  {
    DropBehind(h, r, k);
  }

  lemma HeadFree(p: Pattern, s: string, k: nat, t: string)
    requires p != QuotedForm && s != [] && t == Replace(p, s)
    requires k < Consumed(p, s) && k <= |t| && Starred(t[k..], s[k..])
    ensures MatchLength(p, t[k..]) == 0
  {
    if k == 0 && MatchLength(p, s) > 0 {
      FormattedHeadFree(p, s, Replace(p, s[MatchLength(p, s)..]));
      assert t[0..] == t;
    } else {
      NothingStartsAt(p, s, k);
      if MatchLength(p, t[k..]) > 0 { StarsMakeNoMatch(p, t[k..], s[k..]); }
    }
  }

  lemma NothingStartsAt(p: Pattern, s: string, k: nat)
    requires p != QuotedForm && s != [] && k < Consumed(p, s) && (k > 0 || MatchLength(p, s) == 0)
    ensures MatchLength(p, s[k..]) == 0
  {
    if k > 0 { NoNameInside(p, s, k); } else { assert s[0..] == s; }
  }

  lemma FreeAtStart(p: Pattern, s: string)
    requires Free(p, s)
    ensures MatchLength(p, s) == 0
  {
    assert s[0..] == s;
  }

  /** On a text without matches a pass does nothing. */
  lemma {:induction false} NothingToReplace(p: Pattern, s: string)
    requires Free(p, s)
    ensures Replace(p, s) == s
    decreases |s|
  {
    if s != [] {
      FreeAtStart(p, s);
      FreeSuffix(p, s, 1);
      NothingToReplace(p, s[1..]);
      ReplaceUnfolds(p, s);
      assert [s[0]] + s[1..] == s;
    }
  }

  /** j is a masked position of a match at the head of s: the first behind the sign, the third, ... */
  predicate Masked(p: Pattern, s: string, j: nat) {
    MatchLength(p, s) > 0 && |s| >= 4 && Sign(p, s) < j < MatchLength(p, s) && (j - Sign(p, s)) % 2 == 1
  }

  predicate MaskedFrom(p: Pattern, s: string, k: nat, i: nat)
    requires k <= i < |s|
  {
    Masked(p, s[k..], i - k)
  }

  predicate IsMasked(p: Pattern, s: string, i: nat)
    requires i < |s|
  {
    exists k | 0 <= k <= i :: MaskedFrom(p, s, k, i)
  }

  lemma MaskedInHead(p: Pattern, s: string, i: nat)
    requires p != QuotedForm && s != [] && i < Consumed(p, s)
    ensures IsMasked(p, s, i) <==> Masked(p, s, i)
  {
    assert s[0..] == s;
    assert MaskedFrom(p, s, 0, i) <==> Masked(p, s, i);
    forall k | 0 < k <= i ensures !MaskedFrom(p, s, k, i) { NothingStartsAt(p, s, k); }
  }

  lemma FormattedCharacter(s: string, d: nat, n: nat, f: string, i: nat)
    requires d < n <= |s| && i < n && f == s[..d + 1] + MaskEven(s[d + 1..n])
    ensures |f| == n && f[i] == if i > d && (i - d) % 2 == 1 then '*' else s[i]
  {
    if i > d { assert f[i] == MaskEven(s[d + 1..n])[i - d - 1]; }
  }

  lemma HeadIsMasked(p: Pattern, s: string, i: nat)
    requires p != QuotedForm && s != [] && i < Consumed(p, s)
    ensures |Head(p, s)| == Consumed(p, s) && Head(p, s)[i] == if Masked(p, s, i) then '*' else s[i]
  {
    if MatchLength(p, s) > 0 { MatchIsMasked(p, s, Head(p, s), i); }
  }

  lemma MatchIsMasked(p: Pattern, s: string, h: string, i: nat)
    requires p != QuotedForm && i < MatchLength(p, s) && h == Format(p, s[..MatchLength(p, s)])
    ensures |h| == MatchLength(p, s) && h[i] == if Masked(p, s, i) then '*' else s[i]
  {
    FormatOfMatch(p, s);
    MaskedInMatch(p, s, i);
    FormattedCharacter(s, Sign(p, s), MatchLength(p, s), h, i);
  }

  lemma MaskedInMatch(p: Pattern, s: string, i: nat)
    requires p != QuotedForm && i < MatchLength(p, s)
    ensures |s| >= 4 && (Masked(p, s, i) <==> i > Sign(p, s) && (i - Sign(p, s)) % 2 == 1)
  {
    AfterSign(p, s);
  }

  lemma NotMaskedFromHead(p: Pattern, s: string, k: nat, i: nat)
    requires p != QuotedForm && s != [] && k < Consumed(p, s) <= i < |s|
    ensures !MaskedFrom(p, s, k, i)
  {
    if k > 0 { NothingStartsAt(p, s, k); } else { assert s[0..] == s; }
  }

  lemma MaskedShifted(p: Pattern, s: string, m: nat, k: nat, i: nat)
    requires m <= k <= i < |s|
    ensures MaskedFrom(p, s, k, i) <==> MaskedFrom(p, s[m..], k - m, i - m)
  {
    assert s[m..][k - m..] == s[k..];
  }

  lemma MaskedLater(p: Pattern, s: string, m: nat, k: nat, i: nat)
    requires m <= k <= i < |s| && MaskedFrom(p, s, k, i)
    ensures IsMasked(p, s[m..], i - m)
  {
    MaskedShifted(p, s, m, k, i);
  }

  lemma MaskedEarlier(p: Pattern, s: string, m: nat, k: nat, i: nat)
    requires m <= i < |s| && k <= i - m && MaskedFrom(p, s[m..], k, i - m)
    ensures IsMasked(p, s, i)
  {
    MaskedShifted(p, s, m, k + m, i);
  }

  /** What a pass must make of the character at i. */
  function Star(p: Pattern, s: string, i: nat): char
    requires i < |s|
  {
    if IsMasked(p, s, i) then '*' else s[i]
  }

  ghost predicate NoneMaskedBefore(p: Pattern, s: string, m: nat, i: nat)
    requires m <= i < |s|
  {
    forall k | 0 <= k < m :: !MaskedFrom(p, s, k, i)
  }

  lemma NoneMaskedFromHead(p: Pattern, s: string, i: nat)
    requires p != QuotedForm && s != [] && Consumed(p, s) <= i < |s|
    ensures NoneMaskedBefore(p, s, Consumed(p, s), i)
  {
    forall k | 0 <= k < Consumed(p, s) ensures !MaskedFrom(p, s, k, i) { NotMaskedFromHead(p, s, k, i); }
  }

  lemma StarBehind(p: Pattern, s: string, m: nat, i: nat)
    requires m <= i < |s| && NoneMaskedBefore(p, s, m, i)
    ensures Star(p, s, i) == Star(p, s[m..], i - m)
  {
    if IsMasked(p, s, i) {
      var k :| 0 <= k <= i && MaskedFrom(p, s, k, i);
      MaskedLater(p, s, m, k, i);
    } else if IsMasked(p, s[m..], i - m) {
      var k :| 0 <= k <= i - m && MaskedFrom(p, s[m..], k, i - m);
      MaskedEarlier(p, s, m, k, i);
    }
  }

  lemma StarBehindHead(p: Pattern, s: string, i: nat)
    requires p != QuotedForm && s != [] && Consumed(p, s) <= i < |s|
    ensures Star(p, s, i) == Star(p, s[Consumed(p, s)..], i - Consumed(p, s))
  {
    var m := Consumed(p, s);
    NoneMaskedFromHead(p, s, i);
    StarBehind(p, s, m, i);
  }

  lemma StarInHead(p: Pattern, s: string, i: nat)
    requires p != QuotedForm && s != [] && i < Consumed(p, s)
    ensures |Head(p, s)| == Consumed(p, s) && Head(p, s)[i] == Star(p, s, i)
  {
    HeadIsMasked(p, s, i);
    MaskedInHead(p, s, i);
  }

  ghost function Mask(p: Pattern, s: string): (m: string)
    ensures |m| == |s| && forall i | 0 <= i < |s| :: m[i] == Star(p, s, i)
  {
    seq(|s|, i requires 0 <= i < |s| => Star(p, s, i))
  }

  lemma MaskOfHead(p: Pattern, s: string)
    requires p != QuotedForm && s != []
    ensures Mask(p, s)[..Consumed(p, s)] == Head(p, s)
  {
    var e := Mask(p, s)[..Consumed(p, s)];
    StarInHead(p, s, 0);
    forall i | 0 <= i < |e| ensures e[i] == Head(p, s)[i] { StarInHead(p, s, i); }
  }

  lemma MaskBehindAt(p: Pattern, s: string, i: nat)
    requires p != QuotedForm && s != [] && Consumed(p, s) <= i < |s|
    ensures Mask(p, s)[i] == Mask(p, s[Consumed(p, s)..])[i - Consumed(p, s)]
  {
    StarBehindHead(p, s, i);
  }

  lemma OneMore(t: string, i: nat)
    requires i < |t|
    ensures t[i..] == [t[i]] + t[i + 1..]
  {
  }

  lemma {:induction false} MaskBehind(p: Pattern, s: string, i: nat)
    requires p != QuotedForm && s != [] && Consumed(p, s) <= i <= |s|
    ensures Mask(p, s)[i..] == Mask(p, s[Consumed(p, s)..])[i - Consumed(p, s)..]
    decreases |s| - i
  {
    if i < |s| {
      MaskBehindAt(p, s, i);
      MaskBehind(p, s, i + 1);
      OneMore(Mask(p, s), i);
      OneMore(Mask(p, s[Consumed(p, s)..]), i - Consumed(p, s));
    }
  }

  lemma MaskBehindHead(p: Pattern, s: string)
    requires p != QuotedForm && s != []
    ensures Mask(p, s)[Consumed(p, s)..] == Mask(p, s[Consumed(p, s)..])
  {
    MaskBehind(p, s, Consumed(p, s));
  }

  lemma Join(s: string, m: nat)
    requires m <= |s|
    ensures s == s[..m] + s[m..]
  {
  }

  /** A pass of the first two forms is exactly this: the masked positions of all the matches, wherever
      they start, become stars, and nothing else changes. */
  lemma {:induction false} PassIsExact(p: Pattern, s: string)
    requires p != QuotedForm
    ensures Replace(p, s) == Mask(p, s)
    decreases |s|
  {
    if s != [] {
      PassIsExact(p, s[Consumed(p, s)..]);
      ReplaceUnfolds(p, s);
      MaskOfHead(p, s);
      MaskBehindHead(p, s);
      Join(Mask(p, s), Consumed(p, s));
    }
  }

  /** In the dash form a changed character is a digit of a match. */
  lemma OnlyDigitsOfMatches(s: string, i: nat)
    requires i < |s| && |Replace(DashForm, s)| == |s| && Replace(DashForm, s)[i] != s[i]
    ensures IsDigit(s[i]) && exists k | 0 <= k <= i :: k + 5 <= i < k + Dash(s[k..])
  {
    PassIsExact(DashForm, s);
    assert IsMasked(DashForm, s, i);
    var k :| 0 <= k <= i && MaskedFrom(DashForm, s, k, i);
    AfterSign(DashForm, s[k..]);
    assert s[k..][i - k] == s[i];
  }

  /** `anonymizeString`: same length, digits starred, no identifier left, and idempotent. */
  lemma AnonymizeStringIsComplete(s: string)
    ensures |AnonymizeString(s)| == |s| && Starred(AnonymizeString(s), s)
    ensures Free(DashForm, AnonymizeString(s))
    ensures AnonymizeString(AnonymizeString(s)) == AnonymizeString(s)
  {
    PassRemovesMatches(DashForm, s);
    NothingToReplace(DashForm, AnonymizeString(s));
  }

  // ---------- the third pass ----------

  lemma {:induction false} WithoutConcat(a: string, b: string, c: char)
    ensures Without(a + b, c) == Without(a, c) + Without(b, c)
  {
    if a == [] {
      assert a + b == b;
    } else {
      assert (a + b)[1..] == a[1..] + b;
      WithoutConcat(a[1..], b, c);
    }
  }

  lemma {:induction false} WithoutBlanks(s: string)
    requires AllSpaces(s)
    ensures Without(s, ' ') == []
  {
    if s != [] { WithoutBlanks(s[1..]); }
  }

  /** The characters of a quoted match, position by position. */
  lemma QuotedCharacters(s: string) returns (c: nat, q: nat)
    requires Quoted(s) > 0
    ensures IsQuoted(s, c, q, Quoted(s))
    ensures forall i | 6 <= i < q :: s[i] == (if i == c then ':' else ' ')
    ensures forall i | q < i < Quoted(s) - 1 :: IsDigit(s[i])
  {
    c, q := QuotedShape(s);
    var n := Quoted(s);
    assert forall i | 6 <= i < c :: s[i] == s[6..c][i - 6];
    assert forall i | c < i < q :: s[i] == s[c + 1..q][i - c - 1];
    forall i | q < i < n - 1 ensures IsDigit(s[i]) { assert s[i] == s[q + 1..n - 1][i - q - 1]; }
  }

  lemma FormatQuotedOnce(x: string, y: string)
    requires ':' !in x && ':' !in y
    ensures FormatQuoted(x + [':'] + y)
         == Without(x, ' ') + (":\"" + MaskEven(Without(Without(y, ' '), '\"')) + "\"")
  {
    SplitOnce(x, ':', y);
    var parts := [x, y];
    assert parts[1..] == [y] && [y][1..] == [];
    var v := ":\"" + MaskEven(Without(Without(y, ' '), '\"')) + "\"";
    assert JoinQuoted([y]) == v + JoinQuoted([]) == v;
  }

  /** The formatter drops the blanks and stars every second digit. */
  /** The digits of a quoted match at the head of s. */
  function QuotedDigits(s: string): string
    requires Quoted(s) > 0
  {
    s[ValueQuote(s) + 1..Quoted(s) - 1]
  }

  lemma FormatOfQuoted(s: string) returns (digits: string)
    requires Quoted(s) > 0
    ensures 5 <= |digits| && AllDigits(digits) && digits == QuotedDigits(s)
    ensures Format(QuotedForm, s[..Quoted(s)]) == s[..6] + (":\"" + MaskEven(digits) + "\"")
  {
    var c, q := QuotedCharacters(s);
    var n := Quoted(s);
    digits := s[q + 1..n - 1];
    var x, y := s[..c], s[c + 1..n];
    assert s[..n] == x + [':'] + y;
    NoColon(s, c, q, n);
    FormatQuotedOnce(x, y);
    NameHalf(s, c);
    ValueHalf(s, c, q, n);
  }

  lemma NoColon(s: string, c: nat, q: nat, n: nat)
    requires IsQuoted(s, c, q, n)
    requires forall i | 6 <= i < q :: s[i] == (if i == c then ':' else ' ')
    requires forall i | q < i < n - 1 :: IsDigit(s[i])
    ensures ':' !in s[..c] && ':' !in s[c + 1..n]
  {
    var y := s[c + 1..n];
    assert forall i | 0 <= i < |y| :: y[i] == s[c + 1 + i];
    assert s[1..][0] == s[1] && s[1..][1] == s[2] && s[1..][2] == s[3] && s[1..][3] == s[4];
    assert !IsDigit(':');
  }

  lemma NameHalf(s: string, c: nat)
    requires 6 <= c <= |s| && s[0] == '\"' && StartsName(s[1..]) && s[5] == '\"' && AllSpaces(s[6..c])
    ensures Without(s[..c], ' ') == s[..6]
  {
    assert s[..c] == s[..6] + s[6..c];
    WithoutConcat(s[..6], s[6..c], ' ');
    WithoutBlanks(s[6..c]);
    assert s[1..][0] == s[1] && s[1..][1] == s[2] && s[1..][2] == s[3] && s[1..][3] == s[4];
    WithoutNothing(s[..6], ' ');
  }

  lemma Bracketed(s: string, q: nat, n: nat)
    requires q + 2 <= n <= |s|
    ensures s[q..n] == [s[q]] + s[q + 1..n - 1] + [s[n - 1]]
  {
  }

  lemma ValueHalf(s: string, c: nat, q: nat, n: nat)
    requires IsQuoted(s, c, q, n)
    ensures Without(Without(s[c + 1..n], ' '), '\"') == s[q + 1..n - 1]
  {
    var digits := s[q + 1..n - 1];
    Bracketed(s, q, n);
    assert s[c + 1..n] == s[c + 1..q] + s[q..n];
    WithoutConcat(s[c + 1..q], s[q..n], ' ');
    WithoutBlanks(s[c + 1..q]);
    BareDigits(digits);
    assert Without(s[c + 1..n], ' ') == [] + Without(s[q..n], ' ') == s[q..n];
  }

  lemma BareDigits(digits: string)
    requires AllDigits(digits)
    ensures Without("\"" + digits + "\"", ' ') == "\"" + digits + "\""
    ensures Without("\"" + digits + "\"", '\"') == digits
  {
    assert forall i | 0 <= i < |digits| :: IsDigit(digits[i]);
    assert !IsDigit(' ') && !IsDigit('\"');
    WithoutNothing("\"" + digits + "\"", ' ');
    assert Without("\"", '\"') == [];
    WithoutConcat("\"", digits, '\"');
    WithoutNothing(digits, '\"');
    WithoutConcat("\"" + digits, "\"", '\"');
  }

  /** A formatted match starts with the quoted name and ends with a quote. */
  lemma FormattedShape(s: string)
    requires Quoted(s) > 0
    ensures var f := Format(QuotedForm, s[..Quoted(s)]);
      && |f| >= 14 && f[0] == '\"' && StartsName(f[1..]) && f[5] == '\"' && f[6] == ':' && f[7] == '\"'
      && f[8] == '*' && f[|f| - 1] == '\"'
      && forall i | 8 <= i < |f| - 1 :: f[i] == '*' || IsDigit(f[i])
  {
    var digits := FormatOfQuoted(s);
    var c, q := QuotedCharacters(s);
    var f := Format(QuotedForm, s[..Quoted(s)]);
    assert f[1..][..4] == s[1..][..4];
    assert f[5] == s[5] && f[0] == s[0];
    forall i | 8 <= i < |f| - 1 ensures f[i] == '*' || IsDigit(f[i]) {
      assert f[i] == MaskEven(digits)[i - 8];
      assert IsDigit(digits[i - 8]);
    }
    assert f[8] == MaskEven(digits)[0];
  }

  // ---------- the third pass does not recreate what the first two removed ----------

  /** A match of the first two forms contains no quote, so it lies before the first one. */
  lemma MatchBeforeQuote(p: Pattern, u: string, t: string)
    requires p != QuotedForm && MatchLength(p, u + t) > 0
    requires t != [] && t[0] == '\"'
    ensures MatchLength(p, u) > 0
  {
    var w := u + t;
    var n := MatchLength(p, w);
    AfterSign(p, w);
    assert w[|u|] == '\"';
    assert n <= |u|;
    MatchIsLocal(p, w, u);
  }

  /** Whether the head of a text matches depends on the text of the match only. */
  lemma MatchIsLocal(p: Pattern, x: string, y: string)
    requires MatchLength(p, x) > 0
    requires MatchLength(p, x) <= |y| && x[..MatchLength(p, x)] == y[..MatchLength(p, x)]
    ensures MatchLength(p, y) > 0
    ensures p == QuotedForm ==> Quoted(y) == Quoted(x)
  {
    var n := MatchLength(p, x);
    SameSlices(x, y, n);
    match p
    case DashForm =>
      DashShape(x);
      DashOfShape(y, n);
    case UrlForm =>
      var e, v := UrlShape(x);
      UrlOfShape(y, e, v, n);
    case QuotedForm =>
      var c, q := QuotedShape(x);
      assert forall i | 0 <= i < n :: x[i] == y[i];
      NameOfPrefix(x[1..], y[1..]);
      QuotedOfShape(y, c, q, n);
  }

  lemma SameSlices(x: string, y: string, n: nat)
    requires n <= |x| && n <= |y| && x[..n] == y[..n]
    ensures forall a, b | 0 <= a <= b <= n :: x[a..b] == y[a..b]
    ensures forall i | 0 <= i < n :: x[i] == y[i]
  {
    forall a, b | 0 <= a <= b <= n ensures x[a..b] == y[a..b] {
      assert x[a..b] == x[..n][a..b] && y[a..b] == y[..n][a..b];
    }
    forall i | 0 <= i < n ensures x[i] == y[i] { assert x[..n][i] == y[..n][i]; }
  }

  lemma NameOfPrefix(x: string, y: string)
    requires StartsName(x) && |y| >= 4 && forall i | 0 <= i < 4 :: x[i] == y[i]
    ensures StartsName(y)
  {
  }

  lemma MatchBeforeFormatted(p: Pattern, u: string, s: string)
    requires p != QuotedForm && Quoted(s) > 0 && MatchLength(p, u + Replace(QuotedForm, s)) > 0
    ensures MatchLength(p, u + s) > 0
  {
    FormattedShape(s);
    MatchBeforeQuote(p, u, Replace(QuotedForm, s));
    assert (u + s)[..MatchLength(p, u)] == u[..MatchLength(p, u)];
    MatchIsLocal(p, u, u + s);
  }

  lemma {:induction false} NoNewMatchAcross(p: Pattern, u: string, s: string)
    requires p != QuotedForm && MatchLength(p, u + Replace(QuotedForm, s)) > 0
    ensures MatchLength(p, u + s) > 0
    decreases |s|
  {
    if s == [] {
      assert Replace(QuotedForm, s) == s;
    } else if Quoted(s) > 0 {
      MatchBeforeFormatted(p, u, s);
    } else {
      MoveOver(u, s);
      NoNewMatchAcross(p, u + [s[0]], s[1..]);
    }
  }

  lemma MoveOver(u: string, s: string)
    requires s != [] && Quoted(s) == 0
    ensures u + Replace(QuotedForm, s) == (u + [s[0]]) + Replace(QuotedForm, s[1..])
    ensures u + s == (u + [s[0]]) + s[1..]
  {
    assert s == [s[0]] + s[1..];
    Regroup(u, [s[0]], s[1..]);
    Regroup(u, [s[0]], Replace(QuotedForm, s[1..]));
  }

  lemma QuotedNameHasNoUnquoted(p: Pattern, t: string)
    requires p != QuotedForm && |t| > 4 && t[4] == '\"'
    ensures MatchLength(p, t) == 0
  {
    if p == UrlForm && StartsName(t) { SpaceRunFrom(t, 4, 4); }
  }

  /** No unquoted form starts inside a formatted match. */
  lemma FormattedHasNoUnquoted(p: Pattern, s: string, rest: string, k: nat)
    requires p != QuotedForm && Quoted(s) > 0
    requires k < |Format(QuotedForm, s[..Quoted(s)])|
    ensures MatchLength(p, (Format(QuotedForm, s[..Quoted(s)]) + rest)[k..]) == 0
  {
    FormattedShape(s);
    var f := Format(QuotedForm, s[..Quoted(s)]);
    var t := (f + rest)[k..];
    NameCharacters(f);
    assert forall i | 0 <= i < |f| - k :: t[i] == f[k + i];
    if k == 1 {
      QuotedNameHasNoUnquoted(p, t);
    } else {
      assert !StartsName(t);
    }
  }

  lemma NameCharacters(f: string)
    requires |f| >= 5 && StartsName(f[1..])
    ensures (f[1] == 'i' && f[2] == 'm' && f[3] == 's' && f[4] == 'i')
         || (f[1] == 'I' && f[2] == 'M' && f[3] == 'S' && f[4] == 'I')
  {
    assert f[1..][0] == f[1] && f[1..][1] == f[2] && f[1..][2] == f[3] && f[1..][3] == f[4];
  }

  lemma FreeSuffix(p: Pattern, s: string, m: nat)
    requires Free(p, s) && m <= |s|
    ensures Free(p, s[m..])
  {
    forall k | 0 <= k <= |s[m..]| ensures MatchLength(p, s[m..][k..]) == 0 {
      assert s[m..][k..] == s[m + k..];
    }
  }

  lemma QuotedHeadFree(p: Pattern, s: string, k: nat)
    requires p != QuotedForm && s != [] && MatchLength(p, s) == 0 && k < |Head(QuotedForm, s)|
    ensures k <= |Replace(QuotedForm, s)| && MatchLength(p, Replace(QuotedForm, s)[k..]) == 0
  {
    ReplaceUnfolds(QuotedForm, s);
    if Quoted(s) > 0 {
      FormattedHasNoUnquoted(p, s, Replace(QuotedForm, s[Quoted(s)..]), k);
    } else {
      var t := Replace(QuotedForm, s);
      assert t[0..] == t && [s[0]] + s[1..] == s;
      if MatchLength(p, t) > 0 { NoNewMatchAcross(p, [s[0]], s[1..]); }
    }
  }

  lemma {:induction false} QuotedPassKeepsFree(p: Pattern, s: string)
    requires p != QuotedForm && Free(p, s)
    ensures Free(p, Replace(QuotedForm, s))
    decreases |s|
  {
    if s != [] {
      var m, h := Consumed(QuotedForm, s), Head(QuotedForm, s);
      ReplaceUnfolds(QuotedForm, s);
      FreeSuffix(p, s, m);
      QuotedPassKeepsFree(p, s[m..]);
      assert s[0..] == s && MatchLength(p, s[0..]) == 0;
      forall k | 0 <= k <= |Replace(QuotedForm, s)| ensures MatchLength(p, Replace(QuotedForm, s)[k..]) == 0 {
        if k < |h| { QuotedHeadFree(p, s, k); } else { TailFree(p, h, Replace(QuotedForm, s[m..]), k); }
      }
    }
  }

  lemma StarredFree(p: Pattern, t: string, s: string)
    requires p != QuotedForm && Starred(t, s) && Free(p, s)
    ensures Free(p, t)
  {
    forall k | 0 <= k <= |t| ensures MatchLength(p, t[k..]) == 0 { StarredFreeAt(p, t, s, k); }
  }

  lemma StarredFreeAt(p: Pattern, t: string, s: string, k: nat)
    requires p != QuotedForm && Starred(t, s) && k <= |s| && MatchLength(p, s[k..]) == 0
    ensures MatchLength(p, t[k..]) == 0
  {
    StarredSuffix(t, s, k);
    if MatchLength(p, t[k..]) > 0 { StarsMakeNoMatch(p, t[k..], s[k..]); }
  }

  /** After all three passes of `anonymizeJson` no dash form and no '=' form is left: a later pass
      never recreates what an earlier one removed. */
  lemma AnonymizeJsonIsComplete(s: string)
    ensures Free(DashForm, AnonymizeJson(s)) && Free(UrlForm, AnonymizeJson(s))
  {
    var dash := AnonymizeString(s);
    var url := Replace(UrlForm, dash);
    PassRemovesMatches(DashForm, s);
    PassRemovesMatches(UrlForm, dash);
    StarredFree(DashForm, url, dash);
    QuotedPassKeepsFree(DashForm, url);
    QuotedPassKeepsFree(UrlForm, url);
  }

  // ---------- when a quoted form survives ----------

  /** Two quoted matches share a quote: the one that closes the first opens the second. */
  ghost predicate SharesQuote(s: string) {
    exists k | 0 <= k <= |s| :: SharesQuoteAt(s, k)
  }

  predicate SharesQuoteAt(s: string, k: nat)
    requires k <= |s|
  {
    SharesLastQuote(s[k..])
  }

  predicate SharesLastQuote(s: string) {
    Quoted(s) > 0 && Quoted(s[Quoted(s) - 1..]) > 0
  }

  lemma MatchEndsAtQuote(u: string, t: string)
    requires u != [] && |t| > 1 && t[0] == '\"' && (t[1] == 'i' || t[1] == 'I')
    requires Quoted(u + t) > 0
    ensures Quoted(u + t) <= |u| + 1
  {
    var w := u + t;
    var c, q := QuotedCharacters(w);
    NameCharacters(w);
    assert w[|u|] == '\"' && w[|u| + 1] == t[1];
  }

  /** A match that runs up to a quoted name ends with its opening quote. */
  lemma MatchUpToName(u: string, t: string)
    requires u != [] && |t| > 1 && t[0] == '\"' && (t[1] == 'i' || t[1] == 'I')
    ensures Quoted(u + t) > 0 <==> Quoted(u + "\"") > 0
  {
    var w, x := u + t, u + "\"";
    assert w[..|u| + 1] == x;
    if Quoted(w) > 0 {
      MatchEndsAtQuote(u, t);
      SamePrefix(w, x, Quoted(w));
      MatchIsLocal(QuotedForm, w, x);
    } else if Quoted(x) > 0 {
      SamePrefix(w, x, Quoted(x));
      MatchIsLocal(QuotedForm, x, w);
    }
  }

  lemma SamePrefix(w: string, x: string, n: nat)
    requires n <= |x| <= |w| && w[..|x|] == x
    ensures w[..n] == x[..n]
  {
    assert w[..n] == w[..|x|][..n];
  }

  lemma AcrossFormatted(u: string, s: string)
    requires u != [] && Quoted(s) > 0
    ensures Quoted(u + Replace(QuotedForm, s)) > 0 <==> Quoted(u + s) > 0
  {
    FormattedShape(s);
    var f, t := Format(QuotedForm, s[..Quoted(s)]), Replace(QuotedForm, s);
    assert t[0] == f[0] && t[1] == f[1] == f[1..][0];
    var c, q := QuotedShape(s);
    assert s[1] == s[1..][0];
    MatchUpToName(u, t);
    MatchUpToName(u, s);
  }

  /** The pass cannot make or break a match that starts before the text it works on. */
  lemma {:induction false} QuotedAcross(u: string, s: string)
    requires u != []
    ensures Quoted(u + Replace(QuotedForm, s)) > 0 <==> Quoted(u + s) > 0
    decreases |s|
  {
    if s == [] {
      assert Replace(QuotedForm, s) == s;
    } else if Quoted(s) > 0 {
      AcrossFormatted(u, s);
    } else {
      MoveOver(u, s);
      QuotedAcross(u + [s[0]], s[1..]);
    }
  }

  lemma NotAtQuote(s: string)
    ensures s == [] || s[0] != '\"' || |s| == 1 || !(s[1] == 'i' || s[1] == 'I') ==> Quoted(s) == 0
  {
    if |s| >= 6 { assert s[1..][0] == s[1]; }
  }

  /** No quoted form starts strictly inside a quoted match, before its last quote. */
  lemma NoQuotedInside(s: string, k: nat)
    requires 0 < k < Quoted(s) - 1
    ensures Quoted(s[k..]) == 0
  {
    var c, q := QuotedCharacters(s);
    NameCharacters(s);
    assert s[k..][0] == s[k] && s[k..][1] == s[k + 1];
    NotAtQuote(s[k..]);
  }

  /** Nor inside a formatted match. */
  lemma NoQuotedInFormatted(s: string, rest: string, k: nat)
    requires Quoted(s) > 0 && k < |Format(QuotedForm, s[..Quoted(s)])| - 1
    ensures Quoted((Format(QuotedForm, s[..Quoted(s)]) + rest)[k..]) == 0
  {
    FormattedShape(s);
    var f := Format(QuotedForm, s[..Quoted(s)]);
    if k == 0 {
      assert (f + rest)[0..] == f + rest;
      StarBehindQuote(f + rest);
    } else {
      NameCharacters(f);
      NoNameAt(f, rest, k);
    }
  }

  lemma StarBehindQuote(t: string)
    requires |t| > 8 && t[6] == ':' && t[7] == '\"' && t[8] == '*'
    ensures Quoted(t) == 0
  {
    SpaceRunFrom(t, 6, 6);
    SpaceRunFrom(t, 7, 7);
    assert t[8..][0] == '*';
    assert DigitRun(t[8..]) == 0;
  }

  lemma NoNameAt(f: string, rest: string, k: nat)
    requires k < |f| - 1 && (f[k] != '\"' || (f[k + 1] != 'i' && f[k + 1] != 'I'))
    ensures Quoted((f + rest)[k..]) == 0
  {
    var t := (f + rest)[k..];
    assert t[0] == f[k] && t[1] == f[k + 1];
    NotAtQuote(t);
  }

  lemma FreeTail(p: Pattern, t: string, m: nat)
    requires m <= |t| && forall k | 0 <= k < m :: MatchLength(p, t[k..]) == 0
    ensures Free(p, t) <==> Free(p, t[m..])
  {
    forall k | 0 <= k <= |t| - m ensures t[m..][k..] == t[m + k..] {
    }
    if Free(p, t) {
      forall k | 0 <= k <= |t[m..]| ensures MatchLength(p, t[m..][k..]) == 0 {
        assert MatchLength(p, t[m + k..]) == 0;
      }
    }
    if Free(p, t[m..]) {
      forall k | 0 <= k <= |t| ensures MatchLength(p, t[k..]) == 0 {
        if k >= m { assert t[k..] == t[m..][k - m..]; }
      }
    }
  }

  lemma SharesQuoteTail(s: string, m: nat)
    requires m <= |s| && forall k | 0 <= k < m :: !SharesQuoteAt(s, k)
    ensures SharesQuote(s) <==> SharesQuote(s[m..])
  {
    forall k | 0 <= k <= |s| - m ensures SharesQuoteAt(s[m..], k) == SharesQuoteAt(s, m + k) {
      assert s[m..][k..] == s[m + k..];
    }
    if SharesQuote(s) {
      var k :| 0 <= k <= |s| && SharesQuoteAt(s, k);
      assert SharesQuoteAt(s[m..], k - m);
    }
    if SharesQuote(s[m..]) {
      var k :| 0 <= k <= |s[m..]| && SharesQuoteAt(s[m..], k);
      assert SharesQuoteAt(s, m + k);
    }
  }

  lemma NotSharedBefore(s: string, k: nat)
    requires Quoted(s) > 0 && 0 < k < Quoted(s) && Quoted(s[Quoted(s) - 1..]) == 0
    ensures Quoted(s[k..]) == 0
  {
    if k < Quoted(s) - 1 { NoQuotedInside(s, k); }
  }

  /** Behind a match: it shares its last quote, or the rest of the text decides. */
  lemma SharedOrLater(s: string)
    requires Quoted(s) > 0
    ensures SharesQuote(s) <==> SharesLastQuote(s) || SharesQuote(s[Quoted(s)..])
  {
    assert s[0..] == s;
    if SharesLastQuote(s) {
      assert SharesQuoteAt(s, 0);
    } else {
      forall k | 0 <= k < Quoted(s) ensures !SharesQuoteAt(s, k) {
        if k > 0 { NotSharedBefore(s, k); }
      }
      SharesQuoteTail(s, Quoted(s));
    }
  }

  lemma FreeCons(p: Pattern, c: char, t: string)
    ensures Free(p, [c] + t) <==> MatchLength(p, [c] + t) == 0 && Free(p, t)
  {
    var w := [c] + t;
    assert w[0..] == w && w[1..] == t;
    if MatchLength(p, w) == 0 { FreeTail(p, w, 1); }
  }

  lemma FreeFromLast(p: Pattern, f: string, rest: string)
    requires f != [] && NothingBefore(p, f + rest, |f| - 1)
    ensures Free(p, f + rest) <==> Free(p, [f[|f| - 1]] + rest)
  {
    FreeTail(p, f + rest, |f| - 1);
    LastOfHead(f, rest);
  }

  ghost predicate NothingBefore(p: Pattern, t: string, m: nat)
    requires m <= |t|
  {
    forall k | 0 <= k < m :: MatchLength(p, t[k..]) == 0
  }

  lemma NoQuotedBeforeLast(s: string, rest: string)
    requires Quoted(s) > 0
    ensures var f := Format(QuotedForm, s[..Quoted(s)]);
      f != [] && f[|f| - 1] == '\"' && NothingBefore(QuotedForm, f + rest, |f| - 1)
  {
    FormattedShape(s);
    forall k | 0 <= k < |Format(QuotedForm, s[..Quoted(s)])| - 1
      ensures MatchLength(QuotedForm, (Format(QuotedForm, s[..Quoted(s)]) + rest)[k..]) == 0
    {
      NoQuotedInFormatted(s, rest, k);
    }
  }

  lemma FreeFromLastQuote(s: string, rest: string)
    requires Quoted(s) > 0
    ensures Free(QuotedForm, Format(QuotedForm, s[..Quoted(s)]) + rest) <==> Free(QuotedForm, ['\"'] + rest)
  {
    NoQuotedBeforeLast(s, rest);
    FreeFromLast(QuotedForm, Format(QuotedForm, s[..Quoted(s)]), rest);
  }

  lemma LastOfHead(f: string, rest: string)
    requires f != []
    ensures (f + rest)[|f| - 1..] == [f[|f| - 1]] + rest
  {
  }

  /** Behind a formatted match: a match survives at its last quote, or in the rest. */
  lemma SurvivesOrLater(s: string)
    requires Quoted(s) > 0
    ensures Free(QuotedForm, Replace(QuotedForm, s)) <==>
      Quoted(s[Quoted(s) - 1..]) == 0 && Free(QuotedForm, Replace(QuotedForm, s[Quoted(s)..]))
  {
    var n := Quoted(s);
    var rest := Replace(QuotedForm, s[n..]);
    FreeFromLastQuote(s, rest);
    FreeCons(QuotedForm, '\"', rest);
    QuotedAcross(['\"'], s[n..]);
    LastQuote(s);
  }

  lemma LastQuote(s: string)
    requires Quoted(s) > 0
    ensures s[Quoted(s) - 1..] == ['\"'] + s[Quoted(s)..]
  {
    var c, q := QuotedShape(s);
  }

  /** After the third pass a quoted identifier is left exactly when two quoted matches of its input
      share a quote. */
  lemma {:induction false} QuotedSurvives(s: string)
    ensures Free(QuotedForm, Replace(QuotedForm, s)) <==> !SharesQuote(s)
    decreases |s|
  {
    if s == [] {
      assert s[0..] == s;
    } else if Quoted(s) > 0 {
      SurvivesOrLater(s);
      SharedOrLater(s);
      QuotedSurvives(s[Quoted(s)..]);
    } else {
      var t := Replace(QuotedForm, s);
      assert t[0..] == t && s[0..] == s && s == [s[0]] + s[1..];
      QuotedAcross([s[0]], s[1..]);
      FreeTail(QuotedForm, t, 1);
      assert t[1..] == Replace(QuotedForm, s[1..]);
      SharesQuoteTail(s, 1);
      QuotedSurvives(s[1..]);
    }
  }

  // ---------- the same condition on the text given ----------

  /** A quoted match cannot reach into a name that no quote follows. */
  lemma NameStopsQuoted(u: string, t: string)
    requires StartsName(t) && |t| > 4 && t[4] != '\"'
    ensures Quoted(u + t) == Quoted(u)
  {
    var w := u + t;
    if Quoted(w) > 0 {
      QuotedEndsBefore(u, t);
      assert w[..Quoted(w)] == u[..Quoted(w)];
      MatchIsLocal(QuotedForm, w, u);
    } else if Quoted(u) > 0 {
      assert w[..Quoted(u)] == u[..Quoted(u)];
      MatchIsLocal(QuotedForm, u, w);
    }
  }

  lemma QuotedEndsBefore(u: string, t: string)
    requires StartsName(t) && |t| > 4 && t[4] != '\"' && Quoted(u + t) > 0
    ensures Quoted(u + t) <= |u|
  {
    var w := u + t;
    var c, q := QuotedCharacters(w);
    assert w[1..][0] == w[1] && w[1..][1] == w[2] && w[1..][2] == w[3] && w[1..][3] == w[4];
    assert w[|u|] == t[0] && w[|u| + 1] == t[1] && w[|u| + 4] == t[4];
  }

  /** The first two passes leave every quoted match where it is. */
  lemma {:induction false} QuotedUnmoved(p: Pattern, u: string, s: string)
    requires p != QuotedForm
    ensures Quoted(u + Replace(p, s)) == Quoted(u + s)
    decreases |s|
  {
    if s == [] {
      assert Replace(p, s) == s;
    } else if MatchLength(p, s) > 0 {
      FormattedStartsName(p, s);
      NameStopsQuoted(u, s);
      NameStopsQuoted(u, Replace(p, s));
    } else {
      assert s == [s[0]] + s[1..];
      Regroup(u, [s[0]], s[1..]);
      Regroup(u, [s[0]], Replace(p, s[1..]));
      QuotedUnmoved(p, u + [s[0]], s[1..]);
    }
  }

  lemma FormattedStartsName(p: Pattern, s: string)
    requires p != QuotedForm && MatchLength(p, s) > 0
    ensures StartsName(s) && |s| > 4 && s[4] != '\"'
    ensures var t := Replace(p, s); StartsName(t) && |t| > 4 && t[4] != '\"'
  {
    AfterSign(p, s);
    FormatOfMatch(p, s);
    var d, n := Sign(p, s), MatchLength(p, s);
    var f := Format(p, s[..n]);
    assert forall i | 0 <= i <= d :: f[i] == s[i];
  }

  /** t is s after a pass. Behind position k the pass did what it does to the rest alone, or k is inside
      a match. */
  predicate PassedAt(p: Pattern, t: string, s: string, k: nat)
    requires |t| == |s| && k <= |s|
  {
    t[k..] == Replace(p, s[k..]) || (k < |s| && s[k] != '\"' && t[k] != '\"')
  }

  lemma PassedLater(p: Pattern, t: string, s: string, k: nat, t': string, s': string, j: nat)
    requires |t| == |s| && k <= |s| && |t'| == |s'| && j <= |s'|
    requires t[k..] == t'[j..] && s[k..] == s'[j..] && PassedAt(p, t', s', j)
    ensures PassedAt(p, t, s, k)
  {
    SameFirst(t, k, t', j);
    SameFirst(s, k, s', j);
  }

  lemma {:induction false} PassFrom(p: Pattern, s: string, k: nat)
    requires p != QuotedForm && k <= |s|
    ensures |Replace(p, s)| == |s| && PassedAt(p, Replace(p, s), s, k)
    decreases |s|
  {
    PassKeepsLength(p, s);
    if k == 0 {
      assert s[0..] == s && Replace(p, s)[0..] == Replace(p, s);
    } else if k < Consumed(p, s) {
      PassInside(p, s, k);
    } else {
      var v, w := PassApart(p, s, k);
      PassFrom(p, v, k - Consumed(p, s));
      PassedLater(p, Replace(p, s), s, k, w, v, k - Consumed(p, s));
    }
  }

  lemma PassApart(p: Pattern, s: string, k: nat) returns (v: string, w: string)
    requires p != QuotedForm && s != [] && Consumed(p, s) <= k <= |s|
    ensures v == s[Consumed(p, s)..] && w == Replace(p, v) && |v| == |w| == |s| - Consumed(p, s)
    ensures |Replace(p, s)| == |s|
    ensures Replace(p, s)[k..] == w[k - Consumed(p, s)..] && s[k..] == v[k - Consumed(p, s)..]
  {
    v := s[Consumed(p, s)..];
    w := Replace(p, v);
    PassBehind(p, s, k);
  }

  lemma PassInside(p: Pattern, s: string, k: nat)
    requires p != QuotedForm && s != [] && 0 < k < Consumed(p, s) && |Replace(p, s)| == |s|
    ensures s[k] != '\"' && Replace(p, s)[k] != '\"'
  {
    PassStars(p, s);
    NoQuoteInside(p, s, k);
  }

  lemma SameFirst(t: string, k: nat, r: string, j: nat)
    requires k <= |t| && j <= |r| && t[k..] == r[j..]
    ensures k < |t| <==> j < |r|
    ensures k < |t| && j < |r| ==> t[k] == r[j]
  {
    assert |t[k..]| == |r[j..]|;
    if k < |t| { assert t[k..][0] == r[j..][0]; }
  }

  lemma QuotedKept(p: Pattern, s: string, k: nat)
    requires p != QuotedForm && k <= |s|
    ensures |Replace(p, s)| == |s| && Quoted(Replace(p, s)[k..]) == Quoted(s[k..])
  {
    PassFrom(p, s, k);
    if Replace(p, s)[k..] == Replace(p, s[k..]) {
      QuotedKeptAtStart(p, s[k..]);
    } else {
      NotQuotedFrom(s, k);
      NotQuotedFrom(Replace(p, s), k);
    }
  }

  lemma PassKeepsLength(p: Pattern, s: string)
    requires p != QuotedForm
    ensures |Replace(p, s)| == |s|
  {
    PassStars(p, s);
  }

  lemma PassBehind(p: Pattern, s: string, k: nat)
    requires p != QuotedForm && s != [] && Consumed(p, s) <= k <= |s|
    ensures var m := Consumed(p, s);
      && |Replace(p, s)| == |s| && |Replace(p, s[m..])| == |s| - m
      && Replace(p, s)[k..] == Replace(p, s[m..])[k - m..] && s[k..] == s[m..][k - m..]
  {
    var m := Consumed(p, s);
    PassKeepsLength(p, s);
    PassKeepsLength(p, s[m..]);
    ReplaceUnfolds(p, s);
    DropBehind(Head(p, s), Replace(p, s[m..]), k);
    DropTwice(s, m, k - m);
  }

  lemma QuotedKeptAtStart(p: Pattern, s: string)
    requires p != QuotedForm
    ensures Quoted(Replace(p, s)) == Quoted(s)
  {
    EmptyPrefix(s);
    EmptyPrefix(Replace(p, s));
    QuotedUnmoved(p, [], s);
  }

  lemma EmptyPrefix(s: string)
    ensures [] + s == s
  {
  }

  lemma NoQuoteInside(p: Pattern, s: string, k: nat)
    requires p != QuotedForm && k < MatchLength(p, s)
    ensures s[k] != '\"'
  {
    AfterSign(p, s);
  }

  lemma NotQuotedFrom(s: string, k: nat)
    requires k < |s| && s[k] != '\"'
    ensures Quoted(s[k..]) == 0
  {
    assert s[k..][0] == s[k];
    NotAtQuote(s[k..]);
  }

  lemma SharingKeptAt(t: string, s: string, k: nat)
    requires |t| == |s| && k <= |s| && forall j | 0 <= j <= |s| :: Quoted(t[j..]) == Quoted(s[j..])
    ensures SharesQuoteAt(t, k) == SharesQuoteAt(s, k)
  {
    var n := Quoted(s[k..]);
    assert Quoted(t[k..]) == n;
    if n > 0 {
      var j := k + n - 1;
      assert Quoted(t[j..]) == Quoted(s[j..]);
      DropTwice(s, k, n - 1);
      DropTwice(t, k, n - 1);
    }
  }

  lemma DropBehind(h: string, r: string, k: nat)
    requires |h| <= k <= |h| + |r|
    ensures (h + r)[k..] == r[k - |h|..]
  {
  }

  lemma DropTwice(s: string, a: nat, b: nat)
    requires a + b <= |s|
    ensures s[a..][b..] == s[a + b..]
  {
  }

  lemma PassKeepsSharing(p: Pattern, s: string)
    requires p != QuotedForm
    ensures SharesQuote(Replace(p, s)) <==> SharesQuote(s)
  {
    var t := Replace(p, s);
    QuotedKept(p, s, 0);
    forall j | 0 <= j <= |s| ensures Quoted(t[j..]) == Quoted(s[j..]) { QuotedKept(p, s, j); }
    forall k | 0 <= k <= |s| ensures SharesQuoteAt(t, k) == SharesQuoteAt(s, k) { SharingKeptAt(t, s, k); }
  }

  /** `anonymizeJson` leaves a quoted identifier exactly when, in the text given to it, the closing
      quote of one quoted identifier opens another. */
  lemma QuotedIdentifierSurvives(s: string)
    ensures Free(QuotedForm, AnonymizeJson(s)) <==> !SharesQuote(s)
  {
    var dash := AnonymizeString(s);
    PassKeepsSharing(DashForm, s);
    PassKeepsSharing(UrlForm, dash);
    QuotedSurvives(Replace(UrlForm, dash));
  }

  lemma PlainQuoted(rest: string)
    ensures Quoted("\"imsi\":\"12345\"" + rest) == 14
  {
    var s := "\"imsi\":\"12345\"" + rest;
    assert s[8..13] == "12345";
    assert s[1..][0] == 'i' && s[1..][1] == 'm' && s[1..][2] == 's' && s[1..][3] == 'i';
    QuotedOfShape(s, 6, 7, 14);
  }

  /** Such a text: its first identifier shares a quote with its second. */
  lemma QuotedIdentifierSurvivesOnce()
    ensures !Free(QuotedForm, AnonymizeJson("\"imsi\":\"12345\"" + "imsi\":\"12345\""))
  {
    var x, y := "\"imsi\":\"12345\"", "imsi\":\"12345\"";
    PlainQuoted(y);
    PlainQuoted("");
    LastOfHead(x, y);
    assert ['\"'] + y == x && x + "" == x;
    assert (x + y)[0..] == x + y;
    assert SharesQuoteAt(x + y, 0);
    QuotedIdentifierSurvives(x + y);
  }

  // ---------- what the third pass makes of a text ----------

  /** What a quoted match becomes: the name in its quotes, a colon, a quote and the digits, every second
      one a star from the first on, and a quote; its blanks are dropped. */
  function QuotedMask(s: string): string
    requires Quoted(s) > 0
  {
    s[..6] + (":\"" + MaskEven(QuotedDigits(s)) + "\"")
  }

  /** The first quoted match of s starts at k. */
  ghost predicate FirstQuoted(s: string, k: nat) {
    k <= |s| && Quoted(s[k..]) > 0 && forall j | 0 <= j < k :: Quoted(s[j..]) == 0
  }

  lemma FirstQuotedLater(s: string, k: nat)
    requires s != [] && Quoted(s) == 0 && FirstQuoted(s, k)
    ensures k > 0 && FirstQuoted(s[1..], k - 1) && s[1..][k - 1..] == s[k..]
  {
    assert s[0..] == s;
    DropTwice(s, 1, k - 1);
    forall j | 0 <= j < k - 1 ensures Quoted(s[1..][j..]) == 0 { DropTwice(s, 1, j); }
  }

  /** The third pass copies a text up to its first quoted match, masks that, and goes on behind it. With
      NothingToReplace, for a text without a match, this is all it does. */
  lemma {:induction false} ThirdPassIsExact(s: string, k: nat)
    requires FirstQuoted(s, k)
    ensures Replace(QuotedForm, s)
         == s[..k] + (QuotedMask(s[k..]) + Replace(QuotedForm, s[k..][Quoted(s[k..])..]))
    decreases k
  {
    if k == 0 {
      var digits := FormatOfQuoted(s);
      assert s[0..] == s && s[..0] == [];
      EmptyPrefix(QuotedMask(s) + Replace(QuotedForm, s[Quoted(s)..]));
    } else {
      NotQuotedAtStart(s, k);
      FirstQuotedLater(s, k);
      ThirdPassIsExact(s[1..], k - 1);
      CopyOne(s, k, QuotedMask(s[k..]) + Replace(QuotedForm, s[k..][Quoted(s[k..])..]));
    }
  }

  lemma NotQuotedAtStart(s: string, k: nat)
    requires FirstQuoted(s, k) && k > 0
    ensures s != [] && Quoted(s) == 0
  {
    assert s[0..] == s;
  }

  lemma CopyOne(s: string, k: nat, r: string)
    requires 0 < k <= |s|
    ensures [s[0]] + (s[1..][..k - 1] + r) == s[..k] + r
  {
    assert s[..k] == [s[0]] + s[1..][..k - 1];
  }

  // ---------- doing it twice ----------

  ghost function Stars(s: string): nat {
    multiset(s)['*']
  }

  lemma StarsOfConcat(a: string, b: string)
    ensures Stars(a + b) == Stars(a) + Stars(b)
  {
  }

  lemma NoStarInMatch(s: string)
    requires Quoted(s) > 0
    ensures Stars(s[..Quoted(s)]) == 0
  {
    var c, q := QuotedCharacters(s);
    NameCharacters(s);
    forall i | 0 <= i < Quoted(s) ensures s[i] != '*' { NoStarAt(s, c, q, Quoted(s), i); }
    assert '*' !in s[..Quoted(s)];
  }

  lemma NoStarAt(s: string, c: nat, q: nat, n: nat, i: nat)
    requires IsQuoted(s, c, q, n) && i < n
    requires forall j | 6 <= j < q :: s[j] == (if j == c then ':' else ' ')
    requires forall j | q < j < n - 1 :: IsDigit(s[j])
    ensures s[i] != '*'
  {
    if 0 < i < 5 { assert s[1..][i - 1] == s[i]; }
  }

  lemma StarInFormatted(s: string)
    requires Quoted(s) > 0
    ensures Stars(Format(QuotedForm, s[..Quoted(s)])) > 0
  {
    FormattedShape(s);
    assert '*' in Format(QuotedForm, s[..Quoted(s)]);
  }

  /** The third pass loses no star, and adds one whenever there is something to replace. */
  lemma {:induction false} StarsGrow(s: string)
    ensures Stars(Replace(QuotedForm, s)) >= Stars(s)
    ensures !Free(QuotedForm, s) ==> Stars(Replace(QuotedForm, s)) > Stars(s)
    decreases |s|
  {
    if s == [] {
      assert s[0..] == s;
    } else if Quoted(s) > 0 {
      var n := Quoted(s);
      StarsGrow(s[n..]);
      Join(s, n);
      StarsOfConcat(s[..n], s[n..]);
      StarsOfConcat(Format(QuotedForm, s[..n]), Replace(QuotedForm, s[n..]));
      NoStarInMatch(s);
      StarInFormatted(s);
    } else {
      StarsGrow(s[1..]);
      Join(s, 1);
      assert s[..1] == [s[0]];
      FreeCons(QuotedForm, s[0], s[1..]);
      StarsOfConcat([s[0]], s[1..]);
      StarsOfConcat([s[0]], Replace(QuotedForm, s[1..]));
    }
  }

  lemma FixedIffFree(s: string)
    ensures Replace(QuotedForm, s) == s <==> Free(QuotedForm, s)
  {
    if Free(QuotedForm, s) { NothingToReplace(QuotedForm, s); } else { StarsGrow(s); }
  }

  /** `anonymizeJson` is idempotent on a text exactly when no two of its quoted identifiers share a
      quote. */
  lemma AnonymizeJsonIsIdempotent(s: string)
    ensures AnonymizeJson(AnonymizeJson(s)) == AnonymizeJson(s) <==> !SharesQuote(s)
  {
    var r := AnonymizeJson(s);
    AnonymizeJsonIsComplete(s);
    NothingToReplace(DashForm, r);
    NothingToReplace(UrlForm, r);
    FixedIffFree(r);
    QuotedIdentifierSurvives(s);
  }
}
