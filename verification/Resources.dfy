/** What the map of related resources holds under the keys that the rules look up: of several entries in
    the document with one key, the first counts. */
module Resources {
  import opened Wrappers
  import opened Numerals
  import opened Paths
  import opened Entities
  import opened Members
  import opened Parser
  import opened Guarantees

  /** The map has the same entry, or none, under a key. */
  predicate SameAt(a: Related, b: Related, key: string) {
    (key in a <==> key in b) && (key in a && key in b ==> a[key] == b[key])
  }

  /** Resource i is the first of its name. */
  predicate IsFirst(resources: seq<Member>, i: nat, name: string) {
    i < |resources| && resources[i].name == name && forall j | 0 <= j < i :: resources[j].name != name
  }

  // ---------- journals and legacy subscriptions ----------

  /** A key that only a resource of that very name can put into the map. */
  predicate IsPlain(key: string) {
    !MayBeSubscription(key) && (EndsWith(key, PROV_JOURNAL) || IsLegacyUri(key))
  }

  function PlainResource(key: string, members: seq<Member>, decode: Decoder): Resource {
    if EndsWith(key, PROV_JOURNAL) then Journal(StringOf(members, IMSI_MASK, false, false, decode))
    else LegacySubscription(LegacyOf(members, decode))
  }

  lemma {:induction false} ChildrenKeepPlain(s: RelatedState, path: string, children: seq<Member>, key: string)
    requires IsAuthSubscriptionUri(path) && IsPlain(key)
    ensures SameAt(ReadChildren(s, path, children).related, s.related, key)
    decreases |children|
  {
    if children != [] {
      var child := AddSuffix(path, children[0].name);
      assert child[|path|] == '/' && child[..|path|] == path;
      ChildrenKeepPlain(ReadSubscription(s, child, MembersOf(children[0].value)), path, children[1..], key);
    }
  }

  lemma ResourceAtPlain(s: RelatedState, m: Member, key: string, decode: Decoder)
    requires IsPlain(key)
    ensures var r := ReadResource(s, m, decode).related;
      && (m.name != key || key in s.related ==> SameAt(r, s.related, key))
      && (m.name == key && key !in s.related ==>
            key in r && r[key] == PlainResource(key, MembersOf(m.value), decode))
  {
    if IsAuthSubscriptionUri(m.name) { ChildrenKeepPlain(s, m.name, MembersOf(m.value), key); }
  }

  lemma {:induction false} PlainStays(s: RelatedState, resources: seq<Member>, key: string, decode: Decoder)
    requires IsPlain(key) && key in s.related
    ensures SameAt(ReadResources(s, resources, decode).related, s.related, key)
    decreases |resources|
  {
    if resources != [] {
      ResourceAtPlain(s, resources[0], key, decode);
      PlainStays(ReadResource(s, resources[0], decode), resources[1..], key, decode);
    }
  }

  /** The first resource of the name counts, whatever other resources surround it. */
  lemma {:induction false} FirstPlainCounts(s: RelatedState, resources: seq<Member>, i: nat, key: string,
                                            decode: Decoder)
    requires IsPlain(key) && key !in s.related && IsFirst(resources, i, key)
    ensures var r := ReadResources(s, resources, decode).related;
      key in r && r[key] == PlainResource(key, MembersOf(resources[i].value), decode)
    decreases |resources|
  {
    var next := ReadResource(s, resources[0], decode);
    ResourceAtPlain(s, resources[0], key, decode);
    if i == 0 {
      PlainStays(next, resources[1..], key, decode);
    } else {
      assert resources[1..][i - 1] == resources[i];
      FirstPlainCounts(next, resources[1..], i - 1, key, decode);
    }
  }

  /** Without a resource of the name there is no entry. */
  lemma {:induction false} NoPlainEntry(s: RelatedState, resources: seq<Member>, key: string, decode: Decoder)
    requires IsPlain(key) && key !in s.related && forall r | r in resources :: r.name != key
    ensures key !in ReadResources(s, resources, decode).related
    decreases |resources|
  {
    if resources != [] {
      ResourceAtPlain(s, resources[0], key, decode);
      NoPlainEntry(ReadResource(s, resources[0], decode), resources[1..], key, decode);
    }
  }

  lemma LegacyIsPlain(d: string)
    requires AllDigits(d)
    ensures IsPlain(LEGACY_BASE_PATH + d) && !EndsWith(LEGACY_BASE_PATH + d, PROV_JOURNAL)
  {
    LegacyKey(d);
    SubscriptionPrefixIf(LEGACY_BASE_PATH + d);
    LastOfSuffix(LEGACY_BASE_PATH + d, PROV_JOURNAL);
  }

  lemma OneSlashOnly(m: string, j: nat)
    requires NoSlash(m)
    ensures !OccursAt(m + "/", AUTH_SUBSCRIPTION_CHILD, j)
  {
    if j < |m| { assert (m + "/")[j] == m[j]; }
  }

  lemma JournalIsPlain(m: string)
    requires NoSlash(m)
    ensures IsPlain(JournalPath(m)) && EndsWith(JournalPath(m), PROV_JOURNAL)
  {
    forall j: nat ensures !OccursAt(m + "/", AUTH_SUBSCRIPTION_CHILD, j) { OneSlashOnly(m, j); }
    JournalPathIsJournal(m);
    var key := JournalPath(m);
    assert key[|key| - 11..] == JOURNAL[9..] == PROV_JOURNAL;
  }

  // ---------- flattened subscriptions ----------

  function ChildKey(m: string, d: string): string {
    AddSuffix(SUBSCRIBERS + m + AUTH_SUBSCRIPTION, IMSI_PREFIX + d)
  }

  /** Resource i is the first that gives subscriber m the child z. */
  predicate IsFirstGiver(resources: seq<Member>, i: nat, m: string, z: string) {
    i < |resources| && Gives(resources[i], m, z) && forall j | 0 <= j < i :: !Gives(resources[j], m, z)
  }

  /** What is stored for a child with these members. */
  function Stored(members: seq<Member>): Resource {
    Subscription(SubscriptionOf(members, AuthSubscription(None, None)))
  }

  lemma {:induction false} ChildrenKeep(s: RelatedState, path: string, children: seq<Member>, m: string, z: string)
    requires NoSlash(m) && NoSlash(z) && IsAuthSubscriptionUri(path)
    requires var key := AddSuffix(SUBSCRIBERS + m + AUTH_SUBSCRIPTION, z);
      key in s.related || path != SUBSCRIBERS + m + AUTH_SUBSCRIPTION || Field(children, z).None?
    ensures SameAt(ReadChildren(s, path, children).related, s.related,
                   AddSuffix(SUBSCRIBERS + m + AUTH_SUBSCRIPTION, z))
    decreases |children|
  {
    if children != [] {
      var key := AddSuffix(SUBSCRIBERS + m + AUTH_SUBSCRIPTION, z);
      var first := AddSuffix(path, children[0].name);
      if first == key { FlattenedKeySplits(m, z, path, children[0].name); }
      ChildrenKeep(ReadSubscription(s, first, MembersOf(children[0].value)), path, children[1..], m, z);
    }
  }

  lemma {:induction false} FirstChildCounts(s: RelatedState, path: string, children: seq<Member>, m: string, z: string)
    requires NoSlash(m) && NoSlash(z) && IsAuthSubscriptionUri(path)
    requires path == SUBSCRIBERS + m + AUTH_SUBSCRIPTION && Field(children, z).Some?
    requires AddSuffix(path, z) !in s.related
    ensures var r := ReadChildren(s, path, children).related;
      AddSuffix(path, z) in r && r[AddSuffix(path, z)] == Stored(MembersOf(Field(children, z).value))
    decreases |children|
  {
    var first := AddSuffix(path, children[0].name);
    var next := ReadSubscription(s, first, MembersOf(children[0].value));
    if children[0].name == z {
      ChildrenKeep(next, path, children[1..], m, z);
    } else {
      if first == AddSuffix(path, z) { FlattenedKeySplits(m, z, path, children[0].name); }
      FirstChildCounts(next, path, children[1..], m, z);
    }
  }

  lemma ResourceKeepsChild(s: RelatedState, r: Member, m: string, d: string, decode: Decoder)
    requires NoSlash(m) && 5 <= |d| <= 15 && AllDigits(d)
    requires ChildKey(m, d) in s.related || !Gives(r, m, IMSI_PREFIX + d)
    ensures SameAt(ReadResource(s, r, decode).related, s.related, ChildKey(m, d))
  {
    ImsiKeyIsNothingElse(m, d);
    ImsiSegment(d);
    if IsAuthSubscriptionUri(r.name) && Field(MembersOf(r.value), AUTH_SUBSCRIPTION_STATIC_DATA).None? {
      ChildrenKeep(s, r.name, MembersOf(r.value), m, IMSI_PREFIX + d);
    }
  }

  lemma ResourceGivesChild(s: RelatedState, r: Member, m: string, d: string, decode: Decoder)
    requires NoSlash(m) && 5 <= |d| <= 15 && AllDigits(d)
    requires ChildKey(m, d) !in s.related && Gives(r, m, IMSI_PREFIX + d)
    ensures var related := ReadResource(s, r, decode).related;
      ChildKey(m, d) in related
      && related[ChildKey(m, d)] == Stored(MembersOf(Field(MembersOf(r.value), IMSI_PREFIX + d).value))
  {
    ImsiSegment(d);
    AuthSubscriptionPattern(r.name);
    FirstChildCounts(s, r.name, MembersOf(r.value), m, IMSI_PREFIX + d);
    FlattensChildren(s, r, decode);
  }

  lemma FlattensChildren(s: RelatedState, r: Member, decode: Decoder)
    requires IsAuthSubscriptionUri(r.name) && Field(MembersOf(r.value), AUTH_SUBSCRIPTION_STATIC_DATA).None?
    ensures ReadResource(s, r, decode) == ReadChildren(s, r.name, MembersOf(r.value))
  {
  }

  lemma {:induction false} ChildStays(s: RelatedState, resources: seq<Member>, m: string, d: string, decode: Decoder)
    requires NoSlash(m) && 5 <= |d| <= 15 && AllDigits(d) && ChildKey(m, d) in s.related
    ensures SameAt(ReadResources(s, resources, decode).related, s.related, ChildKey(m, d))
    decreases |resources|
  {
    if resources != [] {
      ResourceKeepsChild(s, resources[0], m, d, decode);
      ChildStays(ReadResource(s, resources[0], decode), resources[1..], m, d, decode);
    }
  }

  /** The first resource that gives a subscriber the child counts, and of its members the first of that
      name. */
  lemma {:induction false} FirstGiverCounts(s: RelatedState, resources: seq<Member>, i: nat, m: string, d: string,
                                            decode: Decoder)
    requires NoSlash(m) && 5 <= |d| <= 15 && AllDigits(d)
    requires ChildKey(m, d) !in s.related && IsFirstGiver(resources, i, m, IMSI_PREFIX + d)
    ensures var r := ReadResources(s, resources, decode).related;
      ChildKey(m, d) in r
      && r[ChildKey(m, d)] == Stored(MembersOf(Field(MembersOf(resources[i].value), IMSI_PREFIX + d).value))
    decreases |resources|
  {
    var next := ReadResource(s, resources[0], decode);
    if i == 0 {
      ResourceGivesChild(s, resources[0], m, d, decode);
      ChildStays(next, resources[1..], m, d, decode);
    } else {
      ResourceKeepsChild(s, resources[0], m, d, decode);
      assert resources[1..][i - 1] == resources[i];
      FirstGiverCounts(next, resources[1..], i - 1, m, d, decode);
    }
  }
}
