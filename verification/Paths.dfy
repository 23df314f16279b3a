/** Resource paths: the URI patterns of `ValidationData.hpp` as predicates, the captures taken from
    them and the path arithmetic. Each predicate is proved equal to "there is a split such that". */
module Paths {
  import opened Numerals

  const SUBSCRIBERS := "/subscribers/"
  const AUTH_SUBSCRIPTION := "/authSubscription"
  const AUTH_SUBSCRIPTION_CHILD := "/authSubscription/"
  const STATIC_DATA := "/authSubscriptionStaticData"
  const DYNAMIC_DATA := "authSubscriptionDynamicData"
  const IMSI_PREFIX := "imsi-"
  const LEGACY_PARENT := "/legacy/serv=Auth/"
  const LEGACY_BASE_PATH := "/legacy/serv=Auth/IMSI="
  const JOURNAL := "/journal/provJournal"
  const PROV_JOURNAL := "provJournal"

  predicate StartsWith(s: string, t: string) {
    |t| <= |s| && s[..|t|] == t
  }

  predicate EndsWith(s: string, t: string) {
    |t| <= |s| && s[|s| - |t|..] == t
  }

  predicate OccursAt(s: string, t: string, k: nat) {
    k + |t| <= |s| && s[k..k + |t|] == t
  }

  predicate NoSlash(s: string) {
    forall i | 0 <= i < |s| :: s[i] != '/'
  }

  /** `path.find_last_of("/")`, with -1 for npos. */
  function LastSlash(s: string): (p: int)
    ensures -1 <= p < |s| && (p >= 0 ==> s[p] == '/')
    ensures forall i | p < i < |s| :: s[i] != '/'
  {
    if s == [] then -1
    else if s[|s| - 1] == '/' then |s| - 1
    else LastSlash(s[..|s| - 1])
  }

  /** `getBasePath`. */
  function BasePath(s: string): string {
    if LastSlash(s) < 0 then s else s[..LastSlash(s)]
  }

  function LastSegment(s: string): (z: string)
    ensures NoSlash(z)
  {
    s[LastSlash(s) + 1..]
  }

  /** `addSuffixToPath`. */
  function AddSuffix(path: string, suffix: string): string {
    path + "/" + suffix
  }

  /** `createPathFromBasePath`. */
  function SiblingPath(path: string, suffix: string): string {
    if suffix == "" then BasePath(path) else AddSuffix(BasePath(path), suffix)
  }

  // ---------- the patterns ----------

  /** ^/subscribers/(.*?)/authSubscription$ */
  predicate IsAuthSubscriptionUri(s: string) {
    |s| >= 30 && StartsWith(s, SUBSCRIBERS) && EndsWith(s, AUTH_SUBSCRIPTION)
  }

  /** ^/subscribers/(.*?)/authSubscription/[^/]*$ */
  predicate IsPrivIdUri(s: string) {
    LastSlash(s) >= 0 && IsAuthSubscriptionUri(BasePath(s))
  }

  /** ^/subscribers/(.*?)/authSubscription/(.*?)/authSubscriptionStaticData$ */
  predicate IsStaticDataUri(s: string) {
    && StartsWith(s, SUBSCRIBERS) && EndsWith(s, STATIC_DATA)
    && exists k | 13 <= k <= |s| - 45 :: OccursAt(s, AUTH_SUBSCRIPTION_CHILD, k)
  }

  predicate IsImsiSegment(z: string) {
    10 <= |z| <= 20 && z[..5] == IMSI_PREFIX && AllDigits(z[5..])
  }

  /** First alternative of the IMSI pattern: the path ends in imsi-digits. */
  predicate ImsiEndsPath(s: string) {
    IsPrivIdUri(s) && IsImsiSegment(LastSegment(s))
  }

  /** Second alternative: one more segment follows imsi-digits. */
  predicate ImsiBeforeLast(s: string) {
    LastSlash(s) >= 0 && ImsiEndsPath(BasePath(s))
  }

  predicate IsImsiUri(s: string) {
    ImsiEndsPath(s) || ImsiBeforeLast(s)
  }

  /** ^/legacy/serv=Auth/[^/]*$ */
  predicate IsLegacyUri(s: string) {
    StartsWith(s, LEGACY_PARENT) && NoSlash(s[18..])
  }

  // ---------- the captures ----------

  /** `getImsi`: capture 4, which only the second alternative fills. */
  function GetImsi(s: string): (imsi: string)
    ensures AllDigits(imsi)
  {
    if ImsiEndsPath(s) then ""
    else if ImsiBeforeLast(s) then LastSegment(BasePath(s))[5..]
    else ""
  }

  /** `getLegacyPathFromResourcePath`. */
  function LegacyPath(s: string): string {
    LEGACY_BASE_PATH + GetImsi(s)
  }

  function FirstOccurrence(s: string, t: string, from: nat): (k: nat)
    requires exists k | from <= k <= |s| :: OccursAt(s, t, k)
    ensures from <= k && OccursAt(s, t, k)
    ensures forall j | from <= j < k :: !OccursAt(s, t, j)
    decreases |s| - from
  {
    if OccursAt(s, t, from) then from else FirstOccurrence(s, t, from + 1)
  }

  /** `getMscId`: the first, non-greedy capture of the static-data pattern. */
  function GetMscId(s: string): string {
    if IsStaticDataUri(s) then s[13..FirstOccurrence(s, AUTH_SUBSCRIPTION_CHILD, 13)] else ""
  }

  /** `buildProvJournalResourcePathFromMscId`. */
  function JournalPath(mscId: string): string {
    SUBSCRIBERS + mscId + JOURNAL
  }

  // ---------- characters of a path that a pattern fixes ----------

  lemma LastOfSuffix(s: string, t: string)
    requires |t| > 0
    ensures EndsWith(s, t) ==> s[|s| - 1] == t[|t| - 1]
  {
    if EndsWith(s, t) { assert s[|s| - |t|..][|t| - 1] == t[|t| - 1]; }
  }

  lemma FirstOfSuffix(s: string, t: string)
    requires |t| > 0
    ensures EndsWith(s, t) ==> s[|s| - |t|] == t[0]
  {
    if EndsWith(s, t) { assert s[|s| - |t|..][0] == t[0]; }
  }

  lemma CharOfPrefix(s: string, t: string, i: nat)
    requires i < |t|
    ensures StartsWith(s, t) ==> s[i] == t[i]
  {
    if StartsWith(s, t) { assert s[..|t|][i] == t[i]; }
  }

  lemma AuthSubscriptionEnds(s: string)
    ensures IsAuthSubscriptionUri(s) ==> s[|s| - 1] == 'n' && s[1] == 's'
  {
    LastOfSuffix(s, AUTH_SUBSCRIPTION);
    CharOfPrefix(s, SUBSCRIBERS, 1);
  }

  lemma ImsiPathEnds(s: string)
    ensures ImsiEndsPath(s) ==> IsDigit(s[|s| - 1])
  {
    if ImsiEndsPath(s) {
      var z := LastSegment(s);
      assert s[|s| - 1] == z[|z| - 1] == z[5..][|z| - 6];
    }
  }

  // ---------- the patterns say what the regular expressions say ----------

  lemma AuthSubscriptionPattern(s: string)
    ensures IsAuthSubscriptionUri(s) <==> exists m :: s == SUBSCRIBERS + m + AUTH_SUBSCRIPTION
  {
    if IsAuthSubscriptionUri(s) {
      var m := s[13..|s| - 17];
      assert s == s[..13] + m + s[|s| - 17..];
    }
  }

  lemma SplitAtLastSlash(base: string, z: string)
    requires NoSlash(z)
    ensures LastSlash(base + "/" + z) == |base|
    ensures BasePath(base + "/" + z) == base && LastSegment(base + "/" + z) == z
  {
    var s := base + "/" + z;
    assert s[|base|] == '/' && s[..|base|] == base && s[|base| + 1..] == z;
    SplitAt(s, |base|);
  }

  lemma SplitAt(s: string, p: nat)
    requires p < |s| && s[p] == '/' && NoSlash(s[p + 1..])
    ensures LastSlash(s) == p && BasePath(s) == s[..p] && LastSegment(s) == s[p + 1..]
  {
    forall i | p < i < |s| ensures s[i] != '/' {
      assert s[i] == s[p + 1..][i - p - 1];
    }
    LastSlashIs(s, p);
  }

  lemma LastSlashIs(s: string, p: nat)
    requires p < |s| && s[p] == '/' && forall i | p < i < |s| :: s[i] != '/'
    ensures LastSlash(s) == p
  {
  }

  lemma JoinAtLastSlash(s: string)
    requires LastSlash(s) >= 0
    ensures s == BasePath(s) + "/" + LastSegment(s)
  {
  }

  lemma PrivIdPattern(s: string)
    ensures IsPrivIdUri(s) <==>
      exists m, z :: NoSlash(z) && s == SUBSCRIBERS + m + AUTH_SUBSCRIPTION + "/" + z
  {
    if IsPrivIdUri(s) {
      JoinAtLastSlash(s);
      AuthSubscriptionPattern(BasePath(s));
    }
    forall m, z | NoSlash(z) && s == SUBSCRIBERS + m + AUTH_SUBSCRIPTION + "/" + z
      ensures IsPrivIdUri(s)
    {
      SplitAtLastSlash(SUBSCRIBERS + m + AUTH_SUBSCRIPTION, z);
      AuthSubscriptionPattern(SUBSCRIBERS + m + AUTH_SUBSCRIPTION);
    }
  }

  lemma StaticDataPattern(s: string)
    ensures IsStaticDataUri(s) <==>
      exists m, n :: s == SUBSCRIBERS + m + AUTH_SUBSCRIPTION_CHILD + n + STATIC_DATA
  {
    if IsStaticDataUri(s) {
      var k :| 13 <= k <= |s| - 45 && OccursAt(s, AUTH_SUBSCRIPTION_CHILD, k);
      SplitAround(s, k);
    }
    forall m, n | s == SUBSCRIBERS + m + AUTH_SUBSCRIPTION_CHILD + n + STATIC_DATA
      ensures IsStaticDataUri(s)
    {
      SplitOccurs(s, m, n);
    }
  }

  /** The capture is a split of the path, and the shortest one. */
  lemma MscIdIsShortest(s: string, m: string, n: string)
    requires s == SUBSCRIBERS + m + AUTH_SUBSCRIPTION_CHILD + n + STATIC_DATA
    ensures IsStaticDataUri(s)
    ensures GetMscId(s) <= m
    ensures exists n' :: s == SUBSCRIBERS + GetMscId(s) + AUTH_SUBSCRIPTION_CHILD + n' + STATIC_DATA
  {
    StaticDataPattern(s);
    SplitOccurs(s, m, n);
    var k := FirstOccurrence(s, AUTH_SUBSCRIPTION_CHILD, 13);
    assert k <= 13 + |m|;
    assert s[13..13 + |m|][..k - 13] == s[13..k];
    SplitAround(s, k);
  }

  lemma SplitOccurs(s: string, m: string, n: string)
    requires s == SUBSCRIBERS + m + AUTH_SUBSCRIPTION_CHILD + n + STATIC_DATA
    ensures OccursAt(s, AUTH_SUBSCRIPTION_CHILD, 13 + |m|) && s[13..13 + |m|] == m
  {
  }

  lemma SplitAround(s: string, k: nat)
    requires StartsWith(s, SUBSCRIBERS) && EndsWith(s, STATIC_DATA)
    requires 13 <= k <= |s| - 45 && OccursAt(s, AUTH_SUBSCRIPTION_CHILD, k)
    ensures s == SUBSCRIBERS + s[13..k] + AUTH_SUBSCRIPTION_CHILD + s[k + 18..|s| - 27] + STATIC_DATA
  {
    FiveParts(s, 13, k, k + 18, |s| - 27);
  }

  lemma FiveParts(s: string, a: nat, b: nat, c: nat, d: nat)
    requires a <= b <= c <= d <= |s|
    ensures s == s[..a] + s[a..b] + s[b..c] + s[c..d] + s[d..]
  {
    assert s[..a] + s[a..b] == s[..b];
    assert s[..b] + s[b..c] == s[..c];
    assert s[..c] + s[c..d] == s[..d];
  }

  /** For slash-free identifiers the capture is the identifier. */
  lemma MscIdOfPlainPath(m: string, z: string)
    requires NoSlash(m)
    ensures GetMscId(SUBSCRIBERS + m + AUTH_SUBSCRIPTION_CHILD + z + STATIC_DATA) == m
  {
    var s := SUBSCRIBERS + m + AUTH_SUBSCRIPTION_CHILD + z + STATIC_DATA;
    MscIdIsShortest(s, m, z);
    SplitOccurs(s, m, z);
    var k := FirstOccurrence(s, AUTH_SUBSCRIPTION_CHILD, 13);
    assert s[k] == s[k..k + 18][0] == '/';
    NoSlashBefore(m, s, k);
    assert GetMscId(s) == s[13..k] == m;
  }

  lemma NoSlashBefore(m: string, s: string, k: nat)
    requires NoSlash(m) && 13 + |m| <= |s| && s[13..13 + |m|] == m
    requires 13 <= k < |s| && s[k] == '/'
    ensures k >= 13 + |m|
  {
    assert forall i | 13 <= i < 13 + |m| :: s[i] == m[i - 13];
  }

  /** A path never matches both alternatives of the IMSI pattern. */
  lemma AlternativesExclusive(s: string)
    ensures !(ImsiEndsPath(s) && ImsiBeforeLast(s))
  {
    AuthSubscriptionEnds(BasePath(s));
    ImsiPathEnds(BasePath(s));
  }

  lemma ImsiSegment(d: string)
    requires 5 <= |d| <= 15 && AllDigits(d)
    ensures IsImsiSegment(IMSI_PREFIX + d) && NoSlash(IMSI_PREFIX + d)
  {
    var z := IMSI_PREFIX + d;
    assert z[..5] == IMSI_PREFIX && z[5..] == d;
    forall i | 0 <= i < |z| ensures z[i] != '/' {
      if i >= 5 { assert z[i] == d[i - 5] && IsDigit(d[i - 5]); }
    }
  }

  /** The IMSI capture is exact for every subscriber id, slashes included, and every last segment. */
  lemma GetImsiExact(m: string, d: string, z: string)
    requires 5 <= |d| <= 15 && AllDigits(d) && NoSlash(z)
    ensures var s := AddSuffix(AddSuffix(SUBSCRIBERS + m + AUTH_SUBSCRIPTION, IMSI_PREFIX + d), z);
            IsImsiUri(s) && GetImsi(s) == d
  {
    var a := SUBSCRIBERS + m + AUTH_SUBSCRIPTION;
    var b := AddSuffix(a, IMSI_PREFIX + d);
    ImsiSegment(d);
    SplitAtLastSlash(a, IMSI_PREFIX + d);
    SplitAtLastSlash(b, z);
    AuthSubscriptionPattern(a);
    AlternativesExclusive(AddSuffix(b, z));
    assert (IMSI_PREFIX + d)[5..] == d;
  }

  /** On a path that ends in the identifier itself the capture is empty. */
  lemma GetImsiEmpty(m: string, d: string)
    requires 5 <= |d| <= 15 && AllDigits(d)
    ensures var s := AddSuffix(SUBSCRIBERS + m + AUTH_SUBSCRIPTION, IMSI_PREFIX + d);
            IsImsiUri(s) && GetImsi(s) == ""
  {
    var a := SUBSCRIBERS + m + AUTH_SUBSCRIPTION;
    ImsiSegment(d);
    SplitAtLastSlash(a, IMSI_PREFIX + d);
    AuthSubscriptionPattern(a);
  }

  // ---------- which keys can be which ----------

  /** A key made by flattening: an authSubscription path, a slash, and any member name. */
  predicate IsFlattened(key: string) {
    exists p | 0 <= p < |key| :: key[p] == '/' && IsAuthSubscriptionUri(key[..p])
  }

  predicate MayBeSubscription(key: string) {
    IsAuthSubscriptionUri(key) || IsFlattened(key)
  }

  predicate MayBeJournal(key: string) {
    EndsWith(key, PROV_JOURNAL) && !IsAuthSubscriptionUri(key)
  }

  predicate MayBeLegacy(key: string) {
    IsLegacyUri(key) && !EndsWith(key, PROV_JOURNAL)
  }

  lemma SubscriptionPrefix(key: string)
    requires MayBeSubscription(key)
    ensures StartsWith(key, SUBSCRIBERS) && !IsLegacyUri(key)
  {
    if !IsAuthSubscriptionUri(key) {
      var p :| 0 <= p < |key| && key[p] == '/' && IsAuthSubscriptionUri(key[..p]);
      assert key[..p][..13] == key[..13];
    }
    CharOfPrefix(key, SUBSCRIBERS, 1);
    CharOfPrefix(key, LEGACY_PARENT, 1);
  }

  lemma SubscriptionPrefixIf(key: string)
    ensures MayBeSubscription(key) ==> StartsWith(key, SUBSCRIBERS) && !IsLegacyUri(key)
  {
    if MayBeSubscription(key) { SubscriptionPrefix(key); }
  }

  lemma LegacyPathIsLegacy(s: string)
    ensures !MayBeSubscription(LegacyPath(s)) && !MayBeJournal(LegacyPath(s))
  {
    var key, d := LegacyPath(s), GetImsi(s);
    LegacyKey(d);
    SubscriptionPrefixIf(key);
    LastOfSuffix(key, PROV_JOURNAL);
  }

  lemma LegacyKey(d: string)
    requires AllDigits(d)
    ensures var key := LEGACY_BASE_PATH + d;
            IsLegacyUri(key) && (key[|key| - 1] == '=' || IsDigit(key[|key| - 1]))
  {
    var key := LEGACY_BASE_PATH + d;
    assert key[..18] == LEGACY_BASE_PATH[..18] == LEGACY_PARENT;
    assert forall i | 23 <= i < |key| :: key[i] == d[i - 23];
    assert NoSlash(LEGACY_BASE_PATH[18..]);
    assert key[18..] == LEGACY_BASE_PATH[18..] + d;
    assert d != "" ==> key[|key| - 1] == d[|d| - 1];
  }

  /** A subscriber id with no /authSubscription/ inside (nor across its end) has a journal path that
      no flattened key equals. */
  lemma JournalPathIsJournal(mscId: string)
    requires forall j: nat :: !OccursAt(mscId + "/", AUTH_SUBSCRIPTION_CHILD, j)
    ensures !MayBeSubscription(JournalPath(mscId)) && !MayBeLegacy(JournalPath(mscId))
  {
    var key := JournalPath(mscId);
    var e := 13 + |mscId|;
    assert key[e..] == JOURNAL;
    assert EndsWith(key, PROV_JOURNAL) by {
      assert key[|key| - 11..] == JOURNAL[9..] == PROV_JOURNAL;
    }
    AuthSubscriptionEnds(key);
    assert key[|key| - 1] == JOURNAL[19] == 'l';
    forall p | 0 <= p < |key| && key[p] == '/'
      ensures !IsAuthSubscriptionUri(key[..p])
    {
      AuthSubscriptionEnds(key[..p]);
      if p <= e {
        NoSubscriptionInside(mscId, p);
      } else {
        assert key[p] == JOURNAL[p - e];
        assert key[p - 1] == JOURNAL[p - e - 1];
      }
    }
  }

  lemma NoSubscriptionInside(mscId: string, p: nat)
    requires forall j: nat :: !OccursAt(mscId + "/", AUTH_SUBSCRIPTION_CHILD, j)
    requires p <= 13 + |mscId| && JournalPath(mscId)[p] == '/'
    ensures !IsAuthSubscriptionUri(JournalPath(mscId)[..p])
  {
    var key := JournalPath(mscId);
    if p >= 30 {
      var t := mscId + "/";
      assert key[13..14 + |mscId|] == t;
      assert !OccursAt(t, AUTH_SUBSCRIPTION_CHILD, p - 30);
      assert key[..p][p - 17..] == t[p - 30..p - 13];
      assert t[p - 30..p - 12] == t[p - 30..p - 13] + ['/'];
      assert AUTH_SUBSCRIPTION_CHILD == AUTH_SUBSCRIPTION + ['/'];
    }
  }

  /** The non-greedy capture is such an id: the journal lookup cannot land on a subscription. */
  lemma CapturedJournalPathIsJournal(s: string)
    ensures !MayBeSubscription(JournalPath(GetMscId(s))) && !MayBeLegacy(JournalPath(GetMscId(s)))
  {
    var m := GetMscId(s);
    forall j: nat ensures !OccursAt(m + "/", AUTH_SUBSCRIPTION_CHILD, j) {
      if IsStaticDataUri(s) {
        CaptureHasNoSubscription(s, j);
      }
    }
    JournalPathIsJournal(m);
  }

  lemma CaptureHasNoSubscription(s: string, j: nat)
    requires IsStaticDataUri(s)
    ensures !OccursAt(GetMscId(s) + "/", AUTH_SUBSCRIPTION_CHILD, j)
  {
    var k := FirstOccurrence(s, AUTH_SUBSCRIPTION_CHILD, 13);
    CaptureAndSlash(s, k);
    if j + 18 <= k + 1 - 13 {
      OccursInSlice(s, AUTH_SUBSCRIPTION_CHILD, 13, k + 1, j);
    }
  }

  lemma CaptureAndSlash(s: string, k: nat)
    requires 13 <= k && OccursAt(s, AUTH_SUBSCRIPTION_CHILD, k)
    ensures k < |s| && s[13..k] + "/" == s[13..k + 1]
  {
    assert s[k] == s[k..k + 18][0] == '/';
  }

  lemma OccursInSlice(s: string, t: string, a: nat, b: nat, j: nat)
    requires a + j + |t| <= b <= |s|
    ensures OccursAt(s[a..b], t, j) <==> OccursAt(s, t, a + j)
  {
    var u, v := s[a..b][j..j + |t|], s[a + j..a + j + |t|];
    assert |u| == |v| && forall i | 0 <= i < |t| :: u[i] == v[i];
  }

  /** The base path of a path with an IMSI can only hold a subscription. */
  lemma ImsiBaseIsSubscription(s: string)
    requires IsImsiUri(s)
    ensures !MayBeJournal(BasePath(s)) && !MayBeLegacy(BasePath(s))
  {
    var b := BasePath(s);
    if !ImsiEndsPath(s) {
      assert b[LastSlash(b)] == '/' && IsAuthSubscriptionUri(b[..LastSlash(b)]);
    }
    SubscriptionPrefix(b);
    ImsiPathEnds(b);
    LastOfSuffix(b, PROV_JOURNAL);
  }

  lemma StaticDataIsSubscription(s: string)
    requires IsStaticDataUri(s)
    ensures !MayBeJournal(s) && !MayBeLegacy(s)
  {
    LastOfSuffix(s, STATIC_DATA);
    LastOfSuffix(s, PROV_JOURNAL);
    CharOfPrefix(s, SUBSCRIBERS, 1);
    CharOfPrefix(s, LEGACY_PARENT, 1);
  }

  /** A path that reaches the IMSI rules never ends in the dynamic-data segment. */
  lemma ImsiPathIsNotDynamic(s: string)
    requires IsImsiUri(s) && (IsStaticDataUri(s) || IsPrivIdUri(s))
    ensures !EndsWith(s, DYNAMIC_DATA)
  {
    ImsiPathEnds(s);
    ImsiPathEnds(BasePath(s));
    AuthSubscriptionEnds(BasePath(s));
    LastOfSuffix(s, DYNAMIC_DATA);
    FirstOfSuffix(s, STATIC_DATA);
    FirstOfSuffix(s, DYNAMIC_DATA);
  }

  lemma AuthSubscriptionIsNotDynamic(s: string)
    requires IsAuthSubscriptionUri(s)
    ensures !EndsWith(s, DYNAMIC_DATA)
  {
    AuthSubscriptionEnds(s);
    LastOfSuffix(s, DYNAMIC_DATA);
  }
}
