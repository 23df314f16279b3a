/** What the anonymiser does to identifiers, said of the texts themselves: which of them are gone from its
    result, and what each becomes. */
module Redaction {
  import opened Numerals
  import opened Lists
  import opened Anonymiser

  predicate IsName(w: string) {
    w == "imsi" || w == "IMSI"
  }

  predicate IsDecimal(w: string) {
    forall i | 0 <= i < |w| :: '0' <= w[i] <= '9'
  }

  predicate IsBlank(w: string) {
    forall i | 0 <= i < |w| :: w[i] == ' '
  }

  /** A text that does not go on with a digit. */
  predicate NoDigitFirst(w: string) {
    w == [] || !('0' <= w[0] <= '9')
  }

  /** Every second of the first fifteen characters, from the first on, as a star. */
  function Starry(w: string): (r: string)
    ensures |r| == |w|
    ensures forall i | 0 <= i < |w| :: r[i] == if i % 2 == 0 && i < 15 then '*' else w[i]
  {
    seq(|w|, i requires 0 <= i < |w| => if i % 2 == 0 && i < 15 then '*' else w[i])
  }

  // ---------- texts and patterns ----------

  lemma NameStarts(name: string, rest: string)
    requires IsName(name)
    ensures StartsName(name + rest) && |name| == 4
  {
  }

  lemma DigitsOf(a: string, digits: string, rest: string)
    requires IsDecimal(digits) && NoDigitFirst(rest)
    ensures var u := a + digits + rest; |a| <= |u| && DigitRun(u[|a|..]) == |digits|
  {
    var u := a + digits + rest;
    var n := |a| + |digits|;
    assert u[|a|..n] == digits;
    if rest != [] { assert u[n] == rest[0]; }
    DigitRunFrom(u, |a|, n);
    if rest == [] { assert |u[|a|..]| == |digits|; }
  }

  lemma FiveDigits(a: string, digits: string, rest: string)
    requires IsDecimal(digits) && |digits| == 5
    ensures var u := a + digits + rest; |u| >= |a| + 5 && u[|a|..|a| + 5] == digits && AllDigits(u[|a|..|a| + 5])
  {
  }

  // ---------- what is gone ----------

  lemma DashTextMatches(name: string, digits: string, rest: string)
    requires IsName(name) && IsDecimal(digits) && |digits| == 5
    ensures Dash(name + "-" + digits + rest) > 0
  {
    var u := name + "-" + digits + rest;
    FiveDigits(name + "-", digits, rest);
    assert u[4] == '-' && StartsName(u);
    DashOfShape(u, 10);
  }

  lemma NotAtEnd(p: Pattern, t: string, pre: string, u: string)
    requires Free(p, t) && MatchLength(p, u) > 0
    ensures t != pre + u
  {
    assert (pre + u)[|pre|..] == u;
  }

  /** No text whatsoever leaves a name, a dash and five digits after `anonymizeString`. */
  lemma NoDashFormLeft(s: string, pre: string, name: string, digits: string, rest: string)
    requires IsName(name) && IsDecimal(digits) && |digits| == 5
    ensures AnonymizeString(s) != pre + (name + "-" + digits + rest)
  {
    AnonymizeStringIsComplete(s);
    DashTextMatches(name, digits, rest);
    NotAtEnd(DashForm, AnonymizeString(s), pre, name + "-" + digits + rest);
  }

  /** Nor after `anonymizeJson`. */
  lemma NoDashFormInJson(s: string, pre: string, name: string, digits: string, rest: string)
    requires IsName(name) && IsDecimal(digits) && |digits| == 5
    ensures AnonymizeJson(s) != pre + (name + "-" + digits + rest)
  {
    AnonymizeJsonIsComplete(s);
    DashTextMatches(name, digits, rest);
    NotAtEnd(DashForm, AnonymizeJson(s), pre, name + "-" + digits + rest);
  }

  function UrlText(name: string, b1: string, b2: string, digits: string): string {
    name + b1 + "=" + b2 + digits
  }

  predicate IsUrlText(name: string, b1: string, b2: string, digits: string) {
    IsName(name) && IsBlank(b1) && IsBlank(b2) && IsDecimal(digits) && |digits| >= 5
  }

  lemma UrlTextShape(name: string, b1: string, b2: string, digits: string, rest: string)
    requires IsUrlText(name, b1, b2, digits)
    ensures var u, e := UrlText(name, b1, b2, digits) + rest, 4 + |b1|;
      && |u| == e + 1 + |b2| + |digits| + |rest| && StartsName(u) && u[e] == '='
      && u[4..e] == b1 && u[e + 1..e + 1 + |b2|] == b2
      && u[e + 1 + |b2|..e + 1 + |b2| + |digits|] == digits
  {
  }

  lemma UrlTextMatches(name: string, b1: string, b2: string, digits: string, rest: string)
    requires IsUrlText(name, b1, b2, digits)
    ensures Url(UrlText(name, b1, b2, digits) + rest) > 0
  {
    UrlTextShape(name, b1, b2, digits, rest);
    var u, e := UrlText(name, b1, b2, digits) + rest, 4 + |b1|;
    UrlOfShape(u, e, e + 1 + |b2|, e + 1 + |b2| + |digits|);
  }

  /** Nor a name, blanks, an equals sign, blanks and five digits or more. */
  lemma NoUrlFormInJson(s: string, pre: string, name: string, b1: string, b2: string, digits: string, rest: string)
    requires IsUrlText(name, b1, b2, digits)
    ensures AnonymizeJson(s) != pre + (UrlText(name, b1, b2, digits) + rest)
  {
    AnonymizeJsonIsComplete(s);
    UrlTextMatches(name, b1, b2, digits, rest);
    NotAtEnd(UrlForm, AnonymizeJson(s), pre, UrlText(name, b1, b2, digits) + rest);
  }

  // ---------- what a pass does at a name ----------

  predicate NameAt(s: string, j: nat) {
    j <= |s| && StartsName(s[j..])
  }

  /** What a pass makes of a character of a text with a name at its head, as far as the next name. */
  function Expected(p: Pattern, u: string, i: nat): char
    requires i < |u|
  {
    if Masked(p, u, i) then '*' else u[i]
  }

  /** From a name on, up to the next one, only the match at that name counts. */
  lemma OnlyThisMatch(p: Pattern, s: string, u: string, k: nat, i: nat)
    requires p != QuotedForm && k <= |s| && u == s[k..] && i < |u| && StartsName(u)
    requires forall j | k < j <= k + i :: !NameAt(s, j)
    ensures k + i < |s| && Star(p, s, k + i) == Expected(p, u, i)
  {
    OnlyFromHere(p, s, k, k + i);
    FromHere(p, s, u, k, i);
    StarIs(p, s, k + i, Masked(p, u, i));
    AtSuffix(s, k, u, i);
  }

  lemma StarIs(p: Pattern, s: string, i: nat, masked: bool)
    requires i < |s| && (IsMasked(p, s, i) <==> masked)
    ensures Star(p, s, i) == if masked then '*' else s[i]
  {
  }

  lemma AtSuffix(s: string, k: nat, u: string, i: nat)
    requires k <= |s| && u == s[k..] && i < |u|
    ensures k + i < |s| && s[k + i] == u[i]
  {
  }

  lemma FromHere(p: Pattern, s: string, u: string, k: nat, i: nat)
    requires k <= |s| && u == s[k..] && i < |u|
    ensures MaskedFrom(p, s, k, k + i) <==> Masked(p, u, i)
  {
  }

  lemma OnlyFromHere(p: Pattern, s: string, k: nat, i: nat)
    requires p != QuotedForm && k <= i < |s| && StartsName(s[k..])
    requires forall j | k < j <= i :: !NameAt(s, j)
    ensures IsMasked(p, s, i) <==> MaskedFrom(p, s, k, i)
  {
    forall j | 0 <= j <= i && j != k ensures !MaskedFrom(p, s, j, i) {
      if j < k { NotFromBefore(p, s, j, k, i); } else { NotFromBehind(p, s, j, i); }
    }
  }

  lemma NotFromBefore(p: Pattern, s: string, j: nat, k: nat, i: nat)
    requires p != QuotedForm && j < k <= i < |s| && StartsName(s[k..])
    ensures !MaskedFrom(p, s, j, i)
  {
    DropTwice(s, j, k - j);
    if MatchLength(p, s[j..]) > i - j { NoNameInside(p, s[j..], k - j); }
  }

  lemma NotFromBehind(p: Pattern, s: string, j: nat, i: nat)
    requires p != QuotedForm && j <= i < |s| && !NameAt(s, j)
    ensures !MaskedFrom(p, s, j, i)
  {
    if MatchLength(p, s[j..]) > 0 { AfterSign(p, s[j..]); }
  }

  /** u, at the end of s behind pre, has a name at its head and no other in its first n characters. */
  predicate OneName(u: string, n: nat) {
    0 < n <= |u| && StartsName(u) && forall j | 0 < j < n :: !NameAt(u, j)
  }

  lemma OneNameIn(s: string, k: nat, u: string, n: nat, i: nat)
    requires k <= |s| && u == s[k..] && OneName(u, n) && i < n
    ensures forall j | k < j <= k + i :: !NameAt(s, j)
  {
    forall j | k < j <= k + i ensures !NameAt(s, j) {
      DropTwice(s, k, j - k);
      assert !NameAt(u, j - k);
    }
  }

  /** t is what a pass makes of s. */
  ghost predicate IsPass(p: Pattern, t: string, s: string) {
    |t| == |s| && forall i {:trigger Star(p, s, i)} | 0 <= i < |s| :: t[i] == Star(p, s, i)
  }

  lemma ReplaceIsPass(p: Pattern, s: string)
    requires p != QuotedForm
    ensures IsPass(p, Replace(p, s), s)
  {
    PassIsExact(p, s);
  }

  lemma StarOnSuffix(p: Pattern, s: string, k: nat, u: string, n: nat, i: nat)
    requires p != QuotedForm && k <= |s| && u == s[k..] && OneName(u, n) && i < n
    ensures k + i < |s| && Star(p, s, k + i) == Expected(p, u, i)
  {
    OneNameIn(s, k, u, n, i);
    OnlyThisMatch(p, s, u, k, i);
  }

  lemma SuffixOfJoin(pre: string, u: string)
    ensures (pre + u)[|pre|..] == u
  {
  }

  lemma PassOnText(p: Pattern, t: string, s: string, pre: string, u: string, n: nat, i: nat)
    requires p != QuotedForm && IsPass(p, t, s) && s == pre + u && OneName(u, n) && i < n
    ensures |pre| + i < |t| && t[|pre| + i] == Expected(p, u, i)
  {
    SuffixOfJoin(pre, u);
    StarOnSuffix(p, s, |pre|, u, n, i);
  }

  lemma PassKeepsSuffix(p: Pattern, t: string, s: string, k: nat, u: string, n: nat)
    requires p != QuotedForm && IsPass(p, t, s)
    requires k <= |s| && u == s[k..] && OneName(u, n) && MatchLength(p, u) == 0
    ensures t[k..k + n] == u[..n]
  {
    forall i | 0 <= i < n ensures t[k + i] == u[i] { StarOnSuffix(p, s, k, u, n, i); }
    SameRange(t, k, n, u);
  }

  lemma SameRange(t: string, k: nat, n: nat, u: string)
    requires k + n <= |t| && n <= |u| && forall i | 0 <= i < n :: t[k + i] == u[i]
    ensures t[k..k + n] == u[..n]
  {
  }

  /** A pass that finds no match at the name leaves these characters alone. */
  lemma PassKeepsText(p: Pattern, t: string, s: string, pre: string, u: string, n: nat)
    requires p != QuotedForm && IsPass(p, t, s) && s == pre + u && OneName(u, n) && MatchLength(p, u) == 0
    ensures |pre| + n <= |t| && t[|pre|..|pre| + n] == u[..n]
  {
    SuffixOfJoin(pre, u);
    PassKeepsSuffix(p, t, s, |pre|, u, n);
  }

  lemma Cut(t: string, a: nat, b: nat)
    requires a <= b <= |t|
    ensures t == t[..a] + (t[a..b] + t[b..])
  {
  }

  lemma NotOneOfTwo(u: string, j: nat)
    requires j < |u| && ((u[j] != 'i' && u[j] != 'I') || j + 1 == |u| || (u[j + 1] != 'm' && u[j + 1] != 'M'))
    ensures !NameAt(u, j)
  {
    if j + 1 < |u| { assert u[j..][0] == u[j] && u[j..][1] == u[j + 1]; }
  }

  // ---------- the dash form ----------

  function DashText(name: string, digits: string): string {
    name + "-" + digits
  }

  predicate IsDashText(name: string, digits: string) {
    IsName(name) && IsDecimal(digits) && |digits| >= 5
  }

  lemma DashTextShape(name: string, digits: string, rest: string)
    requires IsDashText(name, digits) && NoDigitFirst(rest)
    ensures var u, n := DashText(name, digits) + rest, 5 + |digits|;
      && n <= |u| && StartsName(u) && u[..4] == name && u[4] == '-' && u[5..n] == digits && u[n..] == rest
      && DigitRun(u[5..]) == |digits|
      && Dash(u) == 5 + (if |digits| < 15 then |digits| else 15)
  {
    DigitsOf(name + "-", digits, rest);
  }

  lemma DashTextOneName(name: string, digits: string, rest: string)
    requires IsDashText(name, digits) && NoDigitFirst(rest)
    ensures OneName(DashText(name, digits) + rest, 5 + |digits|)
  {
    DashTextShape(name, digits, rest);
    var u, n := DashText(name, digits) + rest, 5 + |digits|;
    forall j | 0 < j < n ensures !NameAt(u, j) {
      if j >= 5 { assert u[j] == u[5..n][j - 5]; } else { assert j < 4 ==> u[j] == u[..4][j] == name[j]; }
      NotOneOfTwo(u, j);
    }
  }

  lemma DashTextMasked(name: string, digits: string, rest: string, i: nat)
    requires IsDashText(name, digits) && NoDigitFirst(rest) && i < 5 + |digits|
    ensures var u := DashText(name, digits) + rest;
      Expected(DashForm, u, i) == DashText(name, Starry(digits))[i]
  {
    DashTextShape(name, digits, rest);
    var u := DashText(name, digits) + rest;
    assert i < 4 ==> u[i] == u[..4][i];
    assert i >= 5 ==> u[i] == u[5..5 + |digits|][i - 5];
  }

  /** t has, behind as many characters as pre, the text w. */
  predicate Holds(t: string, pre: string, w: string) {
    |pre| + |w| <= |t| && t[|pre|..|pre| + |w|] == w
  }

  lemma DashPassAt(t: string, pre: string, name: string, digits: string, rest: string, i: nat)
    requires IsDashText(name, digits) && NoDigitFirst(rest) && i < 5 + |digits|
    requires IsPass(DashForm, t, pre + (DashText(name, digits) + rest))
    ensures |DashText(name, Starry(digits))| == 5 + |digits| && |pre| + i < |t|
    ensures t[|pre| + i] == DashText(name, Starry(digits))[i]
  {
    var u := DashText(name, digits) + rest;
    DashTextOneName(name, digits, rest);
    PassOnText(DashForm, t, pre + u, pre, u, 5 + |digits|, i);
    DashTextMasked(name, digits, rest, i);
  }

  lemma Pointwise(t: string, pre: string, w: string)
    requires |pre| + |w| <= |t| && forall i | 0 <= i < |w| :: t[|pre| + i] == w[i]
    ensures Holds(t, pre, w)
  {
  }

  lemma DashPassMasks(t: string, pre: string, name: string, digits: string, rest: string)
    requires IsDashText(name, digits) && NoDigitFirst(rest)
    requires IsPass(DashForm, t, pre + (DashText(name, digits) + rest))
    ensures Holds(t, pre, DashText(name, Starry(digits)))
  {
    var w := DashText(name, Starry(digits));
    DashPassAt(t, pre, name, digits, rest, 4 + |digits|);
    forall i | 0 <= i < |w| ensures t[|pre| + i] == w[i] { DashPassAt(t, pre, name, digits, rest, i); }
    Pointwise(t, pre, w);
  }

  /** A text that holds w behind pre is cut into what stands before, w, and what stands behind. */
  lemma Parts(t: string, pre: string, w: string) returns (before: string, behind: string)
    requires Holds(t, pre, w)
    ensures |before| == |pre| && t == before + (w + behind)
  {
    before, behind := t[..|pre|], t[|pre| + |w|..];
    Cut(t, |pre|, |pre| + |w|);
  }

  /** In every text a name, a dash and five digits or more keep their name and dash, and the first fifteen
      digits have every second one starred, from the first on. */
  lemma DashFormStarred(pre: string, name: string, digits: string, rest: string)
      returns (before: string, behind: string)
    requires IsName(name) && IsDecimal(digits) && |digits| >= 5 && NoDigitFirst(rest)
    ensures |before| == |pre| && |behind| == |rest|
    ensures AnonymizeString(pre + (name + "-" + digits + rest)) == before + (name + "-" + Starry(digits) + behind)
  {
    var t := AnonymizeString(pre + (DashText(name, digits) + rest));
    ReplaceIsPass(DashForm, pre + (DashText(name, digits) + rest));
    DashPassMasks(t, pre, name, digits, rest);
    before, behind := Parts(t, pre, DashText(name, Starry(digits)));
  }

  // ---------- the third pass leaves other texts alone ----------

  /** No quoted identifier has this character. */
  predicate IsForeign(c: char) {
    c == '-' || c == '='
  }

  lemma ForeignToQuoted(s: string, i: nat)
    requires i < Quoted(s)
    ensures !IsForeign(s[i])
  {
    var c, q := QuotedCharacters(s);
    NameCharacters(s);
    NotForeign(s, c, q, Quoted(s), i);
  }

  lemma NotForeign(s: string, c: nat, q: nat, n: nat, i: nat)
    requires IsQuoted(s, c, q, n) && i < n
    requires (s[1] == 'i' && s[2] == 'm' && s[3] == 's' && s[4] == 'i')
          || (s[1] == 'I' && s[2] == 'M' && s[3] == 'S' && s[4] == 'I')
    requires forall j | 6 <= j < q :: s[j] == (if j == c then ':' else ' ')
    requires forall j | q < j < n - 1 :: IsDigit(s[j])
    ensures !IsForeign(s[i])
  {
  }

  predicate IsAlien(w: string) {
    '\"' !in w && exists i | 0 <= i < |w| :: IsForeign(w[i])
  }

  /** A quoted match that starts before w ends before it. */
  lemma EndsBefore(a: string, w: string, z: string)
    requires a != [] && IsAlien(w)
    ensures Quoted(a + (w + z)) <= |a|
  {
    var s := a + (w + z);
    var n := Quoted(s);
    if n > 0 {
      var i :| 0 <= i < |w| && IsForeign(w[i]);
      assert forall j | 0 <= j < |w| :: s[|a| + j] == w[j];
      if |a| + i < n { ForeignToQuoted(s, |a| + i); }
      var c, q := QuotedShape(s);
    }
  }

  lemma {:induction false} ThirdPassCopies(w: string, z: string)
    requires '\"' !in w
    ensures Replace(QuotedForm, w + z) == w + Replace(QuotedForm, z)
  {
    if w == [] {
      EmptyPrefix(z);
      EmptyPrefix(Replace(QuotedForm, z));
    } else {
      assert (w + z)[0] == w[0] && (w + z)[1..] == w[1..] + z;
      NotAtQuote(w + z);
      ThirdPassCopies(w[1..], z);
      Regroup([w[0]], w[1..], Replace(QuotedForm, z));
      assert [w[0]] + w[1..] == w;
    }
  }

  /** Whatever stands around it, the third pass copies such a text. */
  lemma {:induction false} ThirdPassKeeps(a: string, w: string, z: string) returns (before: string, behind: string)
    requires IsAlien(w)
    ensures Replace(QuotedForm, a + (w + z)) == before + (w + behind)
    decreases |a|
  {
    if a == [] {
      EmptyPrefix(w + z);
      ThirdPassCopies(w, z);
      before, behind := [], Replace(QuotedForm, z);
      EmptyPrefix(w + behind);
    } else {
      var s, n := a + (w + z), Consumed(QuotedForm, a + (w + z));
      EndsBefore(a, w, z);
      assert s[n..] == a[n..] + (w + z);
      var b;
      b, behind := ThirdPassKeeps(a[n..], w, z);
      before := Head(QuotedForm, s) + b;
      ReplaceUnfolds(QuotedForm, s);
      Regroup(Head(QuotedForm, s), b, w + behind);
    }
  }

  // ---------- all three passes ----------

  lemma StarryIsAlien(name: string, digits: string)
    requires IsDashText(name, digits)
    ensures IsAlien(DashText(name, Starry(digits)))
  {
    var w := DashText(name, Starry(digits));
    assert w[4] == '-';
    forall i | 0 <= i < |w| ensures w[i] != '\"' { DashTextAt(name, Starry(digits), i); }
  }

  lemma DashTextAt(name: string, digits: string, i: nat)
    requires |name| == 4 && i < |DashText(name, digits)|
    ensures DashText(name, digits)[i] == if i < 4 then name[i] else if i == 4 then '-' else digits[i - 5]
  {
  }

  lemma StarryOneName(name: string, digits: string, rest: string)
    requires IsDashText(name, digits)
    ensures OneName(DashText(name, Starry(digits)) + rest, 5 + |digits|)
    ensures Url(DashText(name, Starry(digits)) + rest) == 0
  {
    var w := DashText(name, Starry(digits));
    var u := w + rest;
    assert forall i | 0 <= i < |w| :: u[i] == w[i];
    forall j | 0 < j < 5 + |digits| ensures !NameAt(u, j) {
      DashTextAt(name, Starry(digits), j);
      if j < 4 { DashTextAt(name, Starry(digits), j + 1); }
      NotOneOfTwo(u, j);
    }
    DashTextAt(name, Starry(digits), 4);
    UrlNeedsBlankOrSign(u);
  }

  lemma UrlNeedsBlankOrSign(u: string)
    requires |u| > 4 && u[4] != ' ' && u[4] != '='
    ensures Url(u) == 0
  {
    assert u[4..][0] == u[4];
  }

  /** A name, a dash and digits keep, whatever stands around them, through all three passes what the first
      one made of them. */
  lemma DashFormStarredInJson(pre: string, name: string, digits: string, rest: string)
      returns (before: string, behind: string)
    requires IsName(name) && IsDecimal(digits) && |digits| >= 5 && NoDigitFirst(rest)
    ensures AnonymizeJson(pre + (name + "-" + digits + rest)) == before + (name + "-" + Starry(digits) + behind)
  {
    var w := DashText(name, Starry(digits));
    var a, z := DashFormStarred(pre, name, digits, rest);
    StarryOneName(name, digits, z);
    StarryIsAlien(name, digits);
    before, behind := LaterPassesKeep(pre + (name + "-" + digits + rest), a, w, z);
  }

  /** A text without quotes that the first pass leaves and the second finds no match in stays to the end. */
  lemma LaterPassesKeep(s: string, a: string, w: string, z: string) returns (before: string, behind: string)
    requires AnonymizeString(s) == a + (w + z) && OneName(w + z, |w|) && Url(w + z) == 0 && IsAlien(w)
    ensures AnonymizeJson(s) == before + (w + behind)
  {
    var t := Replace(UrlForm, a + (w + z));
    ReplaceIsPass(UrlForm, a + (w + z));
    HeadKept(UrlForm, t, a, w, z);
    var a', z' := Parts(t, a, w);
    before, behind := ThirdPassKeeps(a', w, z');
  }

  lemma HeadKept(p: Pattern, t: string, pre: string, w: string, z: string)
    requires p != QuotedForm && IsPass(p, t, pre + (w + z)) && OneName(w + z, |w|) && MatchLength(p, w + z) == 0
    ensures Holds(t, pre, w)
  {
    PassKeepsText(p, t, pre + (w + z), pre, w + z, |w|);
    HeadOfJoin(w, z);
  }

  lemma HeadOfJoin(w: string, z: string)
    ensures (w + z)[..|w|] == w
  {
  }

  // ---------- the form with an equals sign ----------

  /** Blanks and digits, with every second character starred, as far as the match goes: up to the
      fifteenth digit. */
  function StarryValue(b2: string, digits: string): (r: string)
    ensures |r| == |b2| + |digits|
    ensures forall i | 0 <= i < |r| ::
      r[i] == (if i % 2 == 0 && i < |b2| + 15 then '*' else if i < |b2| then b2[i] else digits[i - |b2|])
  {
    seq(|b2| + |digits|, i requires 0 <= i < |b2| + |digits| =>
      if i % 2 == 0 && i < |b2| + 15 then '*' else if i < |b2| then b2[i] else digits[i - |b2|])
  }

  lemma UrlTextAt(name: string, b1: string, b2: string, digits: string, rest: string, i: nat)
    requires |name| == 4 && i < |UrlText(name, b1, b2, digits)|
    ensures var u, e := UrlText(name, b1, b2, digits) + rest, 4 + |b1|;
      u[i] == if i < 4 then name[i] else if i < e then b1[i - 4] else if i == e then '='
              else if i <= e + |b2| then b2[i - e - 1] else digits[i - e - 1 - |b2|]
  {
  }

  lemma UrlTextLength(name: string, b1: string, b2: string, digits: string, rest: string)
    requires IsUrlText(name, b1, b2, digits) && NoDigitFirst(rest)
    ensures var u, e := UrlText(name, b1, b2, digits) + rest, 4 + |b1|;
      && |u| >= 4 && UrlSign(u) == e
      && Url(u) == e + 1 + |b2| + (if |digits| < 15 then |digits| else 15)
  {
    var u, e := UrlText(name, b1, b2, digits) + rest, 4 + |b1|;
    UrlTextShape(name, b1, b2, digits, rest);
    DigitsOf(name + b1 + "=" + b2, digits, rest);
    LengthOfUrl(u, e, e + 1 + |b2|, |digits|);
  }

  lemma LengthOfUrl(u: string, e: nat, v: nat, n: nat)
    requires 4 <= e < v && v + n <= |u| && n >= 5 && StartsName(u) && u[e] == '='
    requires AllSpaces(u[4..e]) && AllSpaces(u[e + 1..v]) && AllDigits(u[v..v + n]) && DigitRun(u[v..]) == n
    ensures UrlSign(u) == e && Url(u) == v + (if n < 15 then n else 15)
  {
    FirstDigit(u, v, v + n);
    SpaceRunFrom(u, 4, e);
    UrlValueIs(u, e, v);
  }

  lemma UrlTextOneName(name: string, b1: string, b2: string, digits: string, rest: string)
    requires IsUrlText(name, b1, b2, digits)
    ensures OneName(UrlText(name, b1, b2, digits) + rest, |UrlText(name, b1, b2, digits)|)
    ensures Dash(UrlText(name, b1, b2, digits) + rest) == 0
  {
    var u, n := UrlText(name, b1, b2, digits) + rest, |UrlText(name, b1, b2, digits)|;
    UrlTextShape(name, b1, b2, digits, rest);
    forall j | 0 < j < n ensures !NameAt(u, j) {
      UrlTextAt(name, b1, b2, digits, rest, j);
      if j + 1 < n { UrlTextAt(name, b1, b2, digits, rest, j + 1); }
      NotOneOfTwo(u, j);
    }
    UrlTextAt(name, b1, b2, digits, rest, 4);
  }

  function UrlMasked(name: string, b1: string, b2: string, digits: string): string {
    name + b1 + "=" + StarryValue(b2, digits)
  }

  lemma UrlMaskedAt(name: string, b1: string, b2: string, digits: string, i: nat)
    requires |name| == 4 && i < |UrlMasked(name, b1, b2, digits)|
    ensures UrlMasked(name, b1, b2, digits)[i]
         == if i < 4 then name[i] else if i < 4 + |b1| then b1[i - 4] else if i == 4 + |b1| then '='
            else StarryValue(b2, digits)[i - 5 - |b1|]
  {
  }

  lemma UrlTextMasked(name: string, b1: string, b2: string, digits: string, rest: string, i: nat)
    requires IsUrlText(name, b1, b2, digits) && NoDigitFirst(rest) && i < |UrlText(name, b1, b2, digits)|
    ensures |UrlMasked(name, b1, b2, digits)| == |UrlText(name, b1, b2, digits)|
    ensures var u := UrlText(name, b1, b2, digits) + rest;
      Expected(UrlForm, u, i) == UrlMasked(name, b1, b2, digits)[i]
  {
    var u := UrlText(name, b1, b2, digits) + rest;
    UrlTextLength(name, b1, b2, digits, rest);
    ExpectedUrl(u, 4 + |b1|, i);
    if i <= 4 + |b1| {
      UrlHeadKept(name, b1, b2, digits, rest, i);
    } else {
      UrlValueStarred(name, b1, b2, digits, rest, i - 5 - |b1|);
      SameReach(i - 5 - |b1|, 4 + |b1|, i, |b2|, |digits|);
    }
  }

  lemma SameReach(j: nat, e: nat, i: nat, blanks: nat, digits: nat)
    requires i == e + 1 + j && j < blanks + digits
    ensures (i < e + 1 + blanks + (if digits < 15 then digits else 15) && (i - e) % 2 == 1) <==>
      j % 2 == 0 && j < blanks + 15
  {
  }

  lemma ExpectedUrl(u: string, e: nat, i: nat)
    requires |u| >= 4 && Url(u) > 0 && UrlSign(u) == e && i < |u|
    ensures Expected(UrlForm, u, i) == if e < i < Url(u) && (i - e) % 2 == 1 then '*' else u[i]
  {
  }

  lemma UrlHeadKept(name: string, b1: string, b2: string, digits: string, rest: string, i: nat)
    requires IsUrlText(name, b1, b2, digits) && i <= 4 + |b1|
    ensures (UrlText(name, b1, b2, digits) + rest)[i] == UrlMasked(name, b1, b2, digits)[i]
  {
    UrlTextAt(name, b1, b2, digits, rest, i);
    UrlMaskedAt(name, b1, b2, digits, i);
  }

  lemma UrlValueStarred(name: string, b1: string, b2: string, digits: string, rest: string, j: nat)
    requires IsUrlText(name, b1, b2, digits) && j < |b2| + |digits|
    ensures var i := 5 + |b1| + j;
      && i < |UrlText(name, b1, b2, digits)| && i < |UrlMasked(name, b1, b2, digits)|
      && UrlMasked(name, b1, b2, digits)[i]
         == if j % 2 == 0 && j < |b2| + 15 then '*' else (UrlText(name, b1, b2, digits) + rest)[i]
  {
    UrlTextAt(name, b1, b2, digits, rest, 5 + |b1| + j);
    UrlMaskedAt(name, b1, b2, digits, 5 + |b1| + j);
    StarryValueAt(b2, digits, j);
  }

  lemma StarryValueAt(b2: string, digits: string, j: nat)
    requires j < |b2| + |digits|
    ensures StarryValue(b2, digits)[j]
         == if j % 2 == 0 && j < |b2| + 15 then '*' else if j < |b2| then b2[j] else digits[j - |b2|]
  {
  }

  lemma UrlPassMasks(t: string, pre: string, name: string, b1: string, b2: string, digits: string, rest: string)
    requires IsUrlText(name, b1, b2, digits) && NoDigitFirst(rest)
    requires IsPass(UrlForm, t, pre + (UrlText(name, b1, b2, digits) + rest))
    ensures Holds(t, pre, UrlMasked(name, b1, b2, digits))
  {
    var w := UrlMasked(name, b1, b2, digits);
    UrlPassAt(t, pre, name, b1, b2, digits, rest, |UrlText(name, b1, b2, digits)| - 1);
    forall i | 0 <= i < |w| ensures t[|pre| + i] == w[i] { UrlPassAt(t, pre, name, b1, b2, digits, rest, i); }
    Pointwise(t, pre, w);
  }

  lemma UrlPassAt(t: string, pre: string, name: string, b1: string, b2: string, digits: string, rest: string, i: nat)
    requires IsUrlText(name, b1, b2, digits) && NoDigitFirst(rest) && i < |UrlText(name, b1, b2, digits)|
    requires IsPass(UrlForm, t, pre + (UrlText(name, b1, b2, digits) + rest))
    ensures |UrlMasked(name, b1, b2, digits)| == |UrlText(name, b1, b2, digits)| && |pre| + i < |t|
    ensures t[|pre| + i] == UrlMasked(name, b1, b2, digits)[i]
  {
    var u := UrlText(name, b1, b2, digits) + rest;
    UrlTextOneName(name, b1, b2, digits, rest);
    PassOnText(UrlForm, t, pre + u, pre, u, |UrlText(name, b1, b2, digits)|, i);
    UrlTextMasked(name, b1, b2, digits, rest, i);
  }

  lemma UrlMaskedIsAlien(name: string, b1: string, b2: string, digits: string)
    requires IsUrlText(name, b1, b2, digits)
    ensures IsAlien(UrlMasked(name, b1, b2, digits))
  {
    var w := UrlMasked(name, b1, b2, digits);
    UrlMaskedAt(name, b1, b2, digits, 4 + |b1|);
    forall i | 0 <= i < |w| ensures w[i] != '\"' { UrlMaskedAt(name, b1, b2, digits, i); }
  }

  /** The first pass changes nothing here, and no digit comes to stand behind the text. */
  lemma DashPassKeepsUrlText(pre: string, name: string, b1: string, b2: string, digits: string, rest: string)
      returns (before: string, behind: string)
    requires IsUrlText(name, b1, b2, digits) && NoDigitFirst(rest)
    ensures |before| == |pre| && NoDigitFirst(behind)
    ensures AnonymizeString(pre + (UrlText(name, b1, b2, digits) + rest))
         == before + (UrlText(name, b1, b2, digits) + behind)
  {
    UrlTextOneName(name, b1, b2, digits, rest);
    before, behind := FirstPassKeeps(pre, UrlText(name, b1, b2, digits), rest);
  }

  lemma FirstPassKeeps(pre: string, w: string, rest: string) returns (before: string, behind: string)
    requires OneName(w + rest, |w|) && Dash(w + rest) == 0 && NoDigitFirst(rest)
    ensures |before| == |pre| && NoDigitFirst(behind)
    ensures AnonymizeString(pre + (w + rest)) == before + (w + behind)
  {
    var s := pre + (w + rest);
    ReplaceIsPass(DashForm, s);
    HeadKept(DashForm, AnonymizeString(s), pre, w, rest);
    before, behind := Parts(AnonymizeString(s), pre, w);
    BehindJoin(pre, w, rest);
    NoNewDigit(s, AnonymizeString(s), |pre| + |w|);
    BehindJoin(before, w, behind);
  }

  lemma BehindJoin(a: string, w: string, z: string)
    ensures (a + (w + z))[|a| + |w|..] == z
  {
  }

  lemma NoNewDigit(s: string, t: string, k: nat)
    requires t == AnonymizeString(s) && k <= |s| && NoDigitFirst(s[k..])
    ensures |t| == |s| && NoDigitFirst(t[k..])
  {
    AnonymizeStringIsComplete(s);
    if k < |s| { assert t[k..][0] == t[k] && s[k..][0] == s[k]; }
  }

  /** In every text a name, blanks, an equals sign, blanks and five digits or more keep name, blanks and
      sign, and of the blanks and the first fifteen digits behind it every second character is a star. */
  lemma UrlFormStarred(pre: string, name: string, b1: string, b2: string, digits: string, rest: string)
      returns (before: string, behind: string)
    requires IsName(name) && IsBlank(b1) && IsBlank(b2) && IsDecimal(digits) && |digits| >= 5 && NoDigitFirst(rest)
    ensures AnonymizeJson(pre + (name + b1 + "=" + b2 + digits + rest))
         == before + (name + b1 + "=" + StarryValue(b2, digits) + behind)
  {
    var w := UrlMasked(name, b1, b2, digits);
    var a, z := DashPassKeepsUrlText(pre, name, b1, b2, digits, rest);
    var t := Replace(UrlForm, a + (UrlText(name, b1, b2, digits) + z));
    ReplaceIsPass(UrlForm, a + (UrlText(name, b1, b2, digits) + z));
    UrlPassMasks(t, a, name, b1, b2, digits, z);
    var a', z' := Parts(t, a, w);
    UrlMaskedIsAlien(name, b1, b2, digits);
    before, behind := ThirdPassKeeps(a', w, z');
  }

  // ---------- the quoted form ----------

  function QuotedText(name: string, b1: string, b2: string, digits: string): string {
    "\"" + name + "\"" + b1 + ":" + b2 + "\"" + digits + "\""
  }

  predicate IsQuotedText(name: string, b1: string, b2: string, digits: string) {
    IsName(name) && IsBlank(b1) && IsBlank(b2) && IsDecimal(digits) && 5 <= |digits| <= 15
  }

  lemma QuotedTextAt(name: string, b1: string, b2: string, digits: string, rest: string, i: nat)
    requires |name| == 4 && i < |QuotedText(name, b1, b2, digits)|
    ensures var u, c, q := QuotedText(name, b1, b2, digits) + rest, 6 + |b1|, 7 + |b1| + |b2|;
      && |QuotedText(name, b1, b2, digits)| == q + |digits| + 2
      && u[i] == if i == 0 || i == 5 || i == q || i == q + |digits| + 1 then '\"' else if i < 5 then name[i - 1]
                 else if i < c then b1[i - 6] else if i == c then ':' else if i < q then b2[i - c - 1]
                 else digits[i - q - 1]
  {
  }

  lemma QuotedTextIsQuoted(name: string, b1: string, b2: string, digits: string, rest: string)
    requires IsQuotedText(name, b1, b2, digits)
    ensures var u, q := QuotedText(name, b1, b2, digits) + rest, 7 + |b1| + |b2|;
      && IsQuoted(u, 6 + |b1|, q, q + |digits| + 2) && u[q + 1..q + 1 + |digits|] == digits
      && |QuotedText(name, b1, b2, digits)| == q + |digits| + 2
  {
    var u, c, q := QuotedText(name, b1, b2, digits) + rest, 6 + |b1|, 7 + |b1| + |b2|;
    QuotedTextAt(name, b1, b2, digits, rest, 0);
    forall i | 0 <= i < q + |digits| + 2
      ensures u[i] == if i == 0 || i == 5 || i == q || i == q + |digits| + 1 then '\"' else if i < 5 then name[i - 1]
                      else if i < c then b1[i - 6] else if i == c then ':' else if i < q then b2[i - c - 1]
                      else digits[i - q - 1]
    {
      QuotedTextAt(name, b1, b2, digits, rest, i);
    }
    assert u[1..][..4] == name;
    assert u[6..c] == b1 && u[c + 1..q] == b2 && u[q + 1..q + 1 + |digits|] == digits;
  }

  lemma QuotedTextMatches(name: string, b1: string, b2: string, digits: string, rest: string)
    requires IsQuotedText(name, b1, b2, digits)
    ensures var u := QuotedText(name, b1, b2, digits) + rest;
      && Quoted(u) == |QuotedText(name, b1, b2, digits)| && QuotedDigits(u) == digits && u[..6] == "\"" + name + "\""
  {
    QuotedTextIsQuoted(name, b1, b2, digits, rest);
    var u, c, q := QuotedText(name, b1, b2, digits) + rest, 6 + |b1|, 7 + |b1| + |b2|;
    QuotedOfShape(u, c, q, q + |digits| + 2);
    ValueQuoteIs(u, c, q);
  }

  /** What a quoted identifier becomes. */
  function QuotedMasked(name: string, digits: string): string {
    "\"" + name + "\":\"" + Starry(digits) + "\""
  }

  lemma MaskIsStarry(digits: string)
    requires |digits| <= 15
    ensures MaskEven(digits) == Starry(digits)
  {
  }

  lemma MaskOfQuotedText(name: string, b1: string, b2: string, digits: string, rest: string)
    requires IsQuotedText(name, b1, b2, digits)
    ensures var u := QuotedText(name, b1, b2, digits) + rest;
      Quoted(u) > 0 && QuotedMask(u) == QuotedMasked(name, digits)
  {
    QuotedTextMatches(name, b1, b2, digits, rest);
    MaskIsStarry(digits);
    assert "\":\"" == "\"" + ":\"";
  }

  /** Behind its opening quote a quoted identifier has one name, at which the first two passes find
      nothing. */
  lemma QuotedTextOneName(name: string, b1: string, b2: string, digits: string, rest: string)
    requires IsQuotedText(name, b1, b2, digits)
    ensures var u, n := QuotedText(name, b1, b2, digits) + rest, |QuotedText(name, b1, b2, digits)|;
      u[0] == '\"' && OneName(u[1..], n - 1) && Dash(u[1..]) == 0 && Url(u[1..]) == 0
  {
    var u, n := QuotedText(name, b1, b2, digits) + rest, |QuotedText(name, b1, b2, digits)|;
    QuotedTextIsQuoted(name, b1, b2, digits, rest);
    QuotedTextAt(name, b1, b2, digits, rest, 0);
    forall j | 0 < j < n - 1 ensures !NameAt(u[1..], j) {
      QuotedTextAt(name, b1, b2, digits, rest, j + 1);
      if j + 2 < n { QuotedTextAt(name, b1, b2, digits, rest, j + 2); }
      DropTwice(u, 1, j);
      NotOneOfTwo(u, j + 1);
    }
    assert u[1..][4] == u[5] == '\"';
    UrlNeedsBlankOrSign(u[1..]);
  }

  lemma QuoteStays(p: Pattern, t: string, s: string, k: nat)
    requires p != QuotedForm && IsPass(p, t, s) && k < |s| && s[k] == '\"'
    ensures t[k] == '\"'
  {
    forall j | 0 <= j <= k ensures !MaskedFrom(p, s, j, k) { QuoteNotMasked(p, s, j, k); }
    assert t[k] == Star(p, s, k);
  }

  lemma QuoteNotMasked(p: Pattern, s: string, j: nat, k: nat)
    requires p != QuotedForm && j <= k < |s| && s[k] == '\"'
    ensures !MaskedFrom(p, s, j, k)
  {
    assert s[j..][k - j] == s[k];
    if MatchLength(p, s[j..]) > k - j { AfterSign(p, s[j..]); }
  }

  lemma QuotedTextKept(p: Pattern, pre: string, name: string, b1: string, b2: string, digits: string, rest: string)
      returns (before: string, behind: string)
    requires p != QuotedForm && IsQuotedText(name, b1, b2, digits)
    ensures var w := QuotedText(name, b1, b2, digits);
      |before| == |pre| && Replace(p, pre + (w + rest)) == before + (w + behind)
  {
    var w := QuotedText(name, b1, b2, digits);
    QuotedTextOneName(name, b1, b2, digits, rest);
    KeptBehindQuote(p, pre, w, rest);
    before, behind := Parts(Replace(p, pre + (w + rest)), pre, w);
  }

  lemma KeptBehindQuote(p: Pattern, pre: string, w: string, rest: string)
    requires p != QuotedForm && |w| > 1 && w[0] == '\"'
    requires OneName((w + rest)[1..], |w| - 1) && MatchLength(p, (w + rest)[1..]) == 0
    ensures Holds(Replace(p, pre + (w + rest)), pre, w)
  {
    var s := pre + (w + rest);
    SuffixOfJoin(pre, w + rest);
    BehindQuote(w, rest);
    DropTwice(s, |pre|, 1);
    ReplaceIsPass(p, s);
    KeptFromQuote(p, Replace(p, s), s, |pre|, (w + rest)[1..], w);
  }

  lemma KeptFromQuote(p: Pattern, t: string, s: string, k: nat, u: string, w: string)
    requires p != QuotedForm && IsPass(p, t, s)
    requires k < |s| && s[k] == '\"' && u == s[k + 1..] && |w| > 1 && w[0] == '\"'
    requires OneName(u, |w| - 1) && MatchLength(p, u) == 0 && u[..|w| - 1] == w[1..]
    ensures k + |w| <= |t| && t[k..k + |w|] == w
  {
    PassKeepsSuffix(p, t, s, k + 1, u, |w| - 1);
    QuoteStays(p, t, s, k);
    SameFromFirst(t, k, w);
  }

  lemma BehindQuote(w: string, rest: string)
    requires w != []
    ensures (w + rest)[1..][..|w| - 1] == w[1..]
  {
  }

  lemma SameFromFirst(t: string, k: nat, w: string)
    requires w != [] && k + |w| <= |t| && t[k] == w[0] && t[k + 1..k + |w|] == w[1..]
    ensures t[k..k + |w|] == w
  {
    assert t[k..k + |w|] == [t[k]] + t[k + 1..k + |w|];
  }

  /** The quote at k closes no quoted identifier. */
  ghost predicate ClosesNothing(s: string, k: nat) {
    forall j | 0 <= j < k && j <= |s| :: Quoted(s[j..]) == 0 || j + Quoted(s[j..]) != k + 1
  }

  /** Then the quoted match it opens is replaced. */
  lemma {:induction false} QuotedReplaced(s: string, k: nat) returns (before: string, behind: string)
    requires k <= |s| && Quoted(s[k..]) > 0 && ClosesNothing(s, k)
    ensures Replace(QuotedForm, s) == before + (QuotedMask(s[k..]) + behind)
    decreases |s|
  {
    if k == 0 {
      assert s[0..] == s;
      var digits := FormatOfQuoted(s);
      before, behind := [], Replace(QuotedForm, s[Quoted(s)..]);
      EmptyPrefix(QuotedMask(s) + behind);
    } else {
      var m := Consumed(QuotedForm, s);
      StepsOver(s, k, m);
      var b;
      b, behind := QuotedReplaced(s[m..], k - m);
      before := Head(QuotedForm, s) + b;
      ReplaceUnfolds(QuotedForm, s);
      Regroup(Head(QuotedForm, s), b, QuotedMask(s[k..]) + behind);
    }
  }

  lemma StepsOver(s: string, k: nat, m: nat)
    requires 0 < k <= |s| && s != [] && Quoted(s[k..]) > 0 && ClosesNothing(s, k) && m == Consumed(QuotedForm, s)
    ensures m <= k && s[m..][k - m..] == s[k..] && ClosesNothing(s[m..], k - m)
  {
    assert s[0..] == s;
    if Quoted(s) > 0 && k < Quoted(s) - 1 { NoQuotedInside(s, k); }
    DropTwice(s, m, k - m);
    ClosesNothingLater(s, k, m);
  }

  lemma ClosesNothingLater(s: string, k: nat, m: nat)
    requires m <= k <= |s| && ClosesNothing(s, k)
    ensures ClosesNothing(s[m..], k - m)
  {
    forall j | 0 <= j < k - m && j <= |s[m..]|
      ensures Quoted(s[m..][j..]) == 0 || j + Quoted(s[m..][j..]) != k - m + 1
    {
      DropTwice(s, m, j);
    }
  }

  /** No quoted identifier ends in the quote behind pre. */
  ghost predicate OpensAfresh(pre: string) {
    forall u, name, b1, b2, digits | IsQuotedText(name, b1, b2, digits) ::
      pre + "\"" != u + QuotedText(name, b1, b2, digits)
  }

  lemma MatchIsText(s: string) returns (name: string, b1: string, b2: string, digits: string)
    requires Quoted(s) > 0
    ensures IsQuotedText(name, b1, b2, digits) && s[..Quoted(s)] == QuotedText(name, b1, b2, digits)
  {
    var c, q := QuotedShape(s);
    NameCharacters(s);
    name, b1, b2, digits := ShapeIsText(s, c, q, Quoted(s));
  }

  lemma ShapeIsText(s: string, c: nat, q: nat, n: nat)
      returns (name: string, b1: string, b2: string, digits: string)
    requires IsQuoted(s, c, q, n)
    requires (s[1] == 'i' && s[2] == 'm' && s[3] == 's' && s[4] == 'i')
          || (s[1] == 'I' && s[2] == 'M' && s[3] == 'S' && s[4] == 'I')
    ensures IsQuotedText(name, b1, b2, digits) && s[..n] == QuotedText(name, b1, b2, digits)
  {
    name, b1, b2, digits := s[1..5], s[6..c], s[c + 1..q], s[q + 1..n - 1];
    NameOfMatch(s);
    Piecewise(s, c, q, n);
  }

  lemma NameOfMatch(s: string)
    requires |s| >= 5
    requires (s[1] == 'i' && s[2] == 'm' && s[3] == 's' && s[4] == 'i')
          || (s[1] == 'I' && s[2] == 'M' && s[3] == 'S' && s[4] == 'I')
    ensures IsName(s[1..5])
  {
  }

  lemma Piecewise(s: string, c: nat, q: nat, n: nat)
    requires 6 <= c < q && q + 2 <= n <= |s|
    requires s[0] == '\"' && s[5] == '\"' && s[c] == ':' && s[q] == '\"' && s[n - 1] == '\"'
    ensures s[..n] == QuotedText(s[1..5], s[6..c], s[c + 1..q], s[q + 1..n - 1])
  {
    assert s[..5] == "\"" + s[1..5];
    assert s[..6] == s[..5] + "\"";
    assert s[..c] == s[..6] + s[6..c];
    assert s[..c + 1] == s[..c] + ":";
    assert s[..q] == s[..c + 1] + s[c + 1..q];
    assert s[..q + 1] == s[..q] + "\"";
    assert s[..n - 1] == s[..q + 1] + s[q + 1..n - 1];
    assert s[..n] == s[..n - 1] + "\"";
  }

  lemma AfreshClosesNothing(pre: string, u: string)
    requires OpensAfresh(pre) && u != [] && u[0] == '\"'
    ensures ClosesNothing(pre + u, |pre|)
  {
    var s := pre + u;
    forall j | 0 <= j < |pre| ensures Quoted(s[j..]) == 0 || j + Quoted(s[j..]) != |pre| + 1 {
      if Quoted(s[j..]) > 0 {
        var name, b1, b2, digits := MatchIsText(s[j..]);
        EndsAtQuote(pre, u, j, Quoted(s[j..]));
      }
    }
  }

  lemma EndsAtQuote(pre: string, u: string, j: nat, n: nat)
    requires u != [] && u[0] == '\"' && j < |pre| && n <= |pre| + |u| - j
    ensures j + n == |pre| + 1 ==> pre + "\"" == pre[..j] + (pre + u)[j..][..n]
  {
  }

  lemma ClosesNothingKept(p: Pattern, s: string, k: nat)
    requires p != QuotedForm && k <= |s| && ClosesNothing(s, k)
    ensures |Replace(p, s)| == |s| && ClosesNothing(Replace(p, s), k)
  {
    PassKeepsLength(p, s);
    forall j | 0 <= j < k && j <= |s| ensures Quoted(Replace(p, s)[j..]) == Quoted(s[j..]) { QuotedKept(p, s, j); }
  }

  /** In every text a quoted name, a colon and five to fifteen quoted digits, with blanks around the colon
      or not, unless their first quote closes another one, become the name, the colon without blanks and
      the digits, every second one starred from the first on. */
  lemma QuotedFormStarred(pre: string, name: string, b1: string, b2: string, digits: string, rest: string)
      returns (before: string, behind: string)
    requires IsName(name) && IsBlank(b1) && IsBlank(b2) && IsDecimal(digits) && 5 <= |digits| <= 15
    requires OpensAfresh(pre)
    ensures AnonymizeJson(pre + ("\"" + name + "\"" + b1 + ":" + b2 + "\"" + digits + "\"" + rest))
         == before + ("\"" + name + "\":\"" + Starry(digits) + "\"" + behind)
  {
    var w := QuotedText(name, b1, b2, digits);
    var s := pre + (w + rest);
    QuotedTextAt(name, b1, b2, digits, rest, 0);
    AfreshClosesNothing(pre, w + rest);
    ClosesNothingKept(DashForm, s, |pre|);
    var a, z := QuotedTextKept(DashForm, pre, name, b1, b2, digits, rest);
    ClosesNothingKept(UrlForm, a + (w + z), |pre|);
    var a', z' := QuotedTextKept(UrlForm, a, name, b1, b2, digits, z);
    MaskOfQuotedText(name, b1, b2, digits, z');
    assert (a' + (w + z'))[|pre|..] == w + z';
    before, behind := QuotedReplaced(a' + (w + z'), |pre|);
  }

  // ---------- other texts ----------

  lemma NamelessHere(s: string, k: nat)
    requires k <= |s| && forall pre, name, rest | IsName(name) :: s != pre + (name + rest)
    ensures !StartsName(s[k..])
  {
    if StartsName(s[k..]) { var name, rest := NameSplit(s, k); }
  }

  lemma NameSplit(s: string, k: nat) returns (name: string, rest: string)
    requires k <= |s| && StartsName(s[k..])
    ensures IsName(name) && s == s[..k] + (name + rest)
  {
    name, rest := s[k..][..4], s[k..][4..];
  }

  lemma NoNameNoMatch(p: Pattern, s: string)
    requires !StartsName(s) && (s != [] ==> !StartsName(s[1..]))
    ensures MatchLength(p, s) == 0
  {
    if p != QuotedForm && MatchLength(p, s) > 0 { AfterSign(p, s); }
  }

  lemma NamelessIsFree(p: Pattern, s: string)
    requires forall pre, name, rest | IsName(name) :: s != pre + (name + rest)
    ensures Free(p, s)
  {
    forall k | 0 <= k <= |s| ensures MatchLength(p, s[k..]) == 0 {
      NamelessHere(s, k);
      if k < |s| {
        NamelessHere(s, k + 1);
        DropTwice(s, k, 1);
      }
      NoNameNoMatch(p, s[k..]);
    }
  }

  /** A text in which neither name occurs is left as it is. */
  lemma NamelessIsKept(s: string)
    requires forall pre, name, rest | IsName(name) :: s != pre + (name + rest)
    ensures AnonymizeString(s) == s && AnonymizeJson(s) == s
  {
    NamelessIsFree(DashForm, s);
    NamelessIsFree(UrlForm, s);
    NamelessIsFree(QuotedForm, s);
    NothingToReplace(DashForm, s);
    NothingToReplace(UrlForm, s);
    NothingToReplace(QuotedForm, s);
  }
}
