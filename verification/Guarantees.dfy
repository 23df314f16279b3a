/** What a document that parses without errors guarantees to the rule engine. */
module Guarantees {
  import opened Wrappers
  import opened Numerals
  import opened Paths
  import opened Entities
  import opened Rules
  import opened Batch
  import opened Members
  import opened Parser

  // ---------- the map of related resources ----------

  lemma ChildIsFlattened(path: string, name: string)
    requires IsAuthSubscriptionUri(path)
    ensures IsFlattened(AddSuffix(path, name))
  {
    var key := AddSuffix(path, name);
    assert key[|path|] == '/' && key[..|path|] == path;
  }

  /** The invariant of the parsing loops: keys fit the variants stored under them, and unless an error
      was recorded every stored subscription has static data. */
  ghost predicate Sound(s: RelatedState) {
    WellKeyed(s.related) && (s.errors == [] ==> StoredStaticData(s.related))
  }

  lemma SubscriptionKeepsSound(s: RelatedState, key: string, members: seq<Member>)
    requires Sound(s) && MayBeSubscription(key)
    ensures Sound(ReadSubscription(s, key, members))
  {
  }

  lemma {:induction false} ChildrenKeepSound(s: RelatedState, path: string, children: seq<Member>)
    requires Sound(s) && IsAuthSubscriptionUri(path)
    ensures Sound(ReadChildren(s, path, children))
    decreases |children|
  {
    if children != [] {
      var key, members := AddSuffix(path, children[0].name), MembersOf(children[0].value);
      ChildIsFlattened(path, children[0].name);
      SubscriptionKeepsSound(s, key, members);
      ChildrenKeepSound(ReadSubscription(s, key, members), path, children[1..]);
    }
  }

  lemma ResourceKeepsSound(s: RelatedState, m: Member, decode: Decoder)
    requires Sound(s)
    ensures Sound(ReadResource(s, m, decode))
  {
    var members := MembersOf(m.value);
    if IsAuthSubscriptionUri(m.name) {
      if Field(members, AUTH_SUBSCRIPTION_STATIC_DATA).Some? {
        SubscriptionKeepsSound(s, m.name, members);
      } else {
        ChildrenKeepSound(s, m.name, members);
      }
    }
  }

  lemma {:induction false} ResourcesKeepSound(s: RelatedState, resources: seq<Member>, decode: Decoder)
    requires Sound(s)
    ensures Sound(ReadResources(s, resources, decode))
    decreases |resources|
  {
    if resources != [] {
      ResourceKeepsSound(s, resources[0], decode);
      ResourcesKeepSound(ReadResource(s, resources[0], decode), resources[1..], decode);
    }
  }

  /** Lookup totality, across the two files: the map of an error-free document whose journal masks are
      empty or reach the bit that is tested lets every lookup of rules and mutations succeed. */
  lemma ParsedRelatedIsReadable(members: seq<Member>, errors: seq<Error>, decode: Decoder)
    requires ReadRelated(members, RelatedState(map[], errors), decode).errors == []
    requires MasksReadable(ReadRelated(members, RelatedState(map[], errors), decode).related)
    requires SeqHesReadable(ReadRelated(members, RelatedState(map[], errors), decode).related)
    ensures Readable(ReadRelated(members, RelatedState(map[], errors), decode).related)
  {
    var start := RelatedState(map[], errors);
    assert Sound(start);
    var list := Field(members, RELATED_RESOURCES);
    if list.Some? { ResourcesKeepSound(start, MembersOf(list.value), decode); }
  }

  // ---------- flattening and lookup agree ----------

  lemma FlattenedKeySplits(m: string, z: string, path: string, name: string)
    requires NoSlash(m) && NoSlash(z) && IsAuthSubscriptionUri(path)
    requires AddSuffix(path, name) == AddSuffix(SUBSCRIBERS + m + AUTH_SUBSCRIPTION, z)
    ensures path == SUBSCRIBERS + m + AUTH_SUBSCRIPTION && name == z
  {
    var base := SUBSCRIBERS + m + AUTH_SUBSCRIPTION;
    var key := AddSuffix(path, name);
    var p := |path|;
    assert key[p] == '/' && key[..p] == path && key[p + 1..] == name;
    assert key[|base|] == '/' && key[..|base|] == base && key[|base| + 1..] == z;
    FirstOfSuffix(path, AUTH_SUBSCRIPTION);
    assert path[p - 17] == key[p - 17];
    SlashesOfKey(m, z, p);
    SlashesOfKey(m, z, p - 17);
  }

  /** The only slashes at or behind the subscriber id. */
  lemma SlashesOfKey(m: string, z: string, p: nat)
    requires NoSlash(m) && NoSlash(z)
    requires var key := AddSuffix(SUBSCRIBERS + m + AUTH_SUBSCRIPTION, z); 13 <= p < |key| && key[p] == '/'
    ensures p == 13 + |m| || p == 30 + |m|
  {
    var key := AddSuffix(SUBSCRIBERS + m + AUTH_SUBSCRIPTION, z);
    assert forall i | 13 <= i < 13 + |m| :: key[i] == m[i - 13];
    assert forall i | 13 + |m| < i < 30 + |m| :: key[i] == AUTH_SUBSCRIPTION[i - 13 - |m|];
    assert forall i | 30 + |m| < i < |key| :: key[i] == z[i - 31 - |m|];
  }

  /** What in a document puts the child z of subscriber m into the map. */
  predicate Gives(resource: Member, m: string, z: string) {
    && resource.name == SUBSCRIBERS + m + AUTH_SUBSCRIPTION
    && Field(MembersOf(resource.value), AUTH_SUBSCRIPTION_STATIC_DATA).None?
    && Field(MembersOf(resource.value), z).Some?
  }

  lemma {:induction false} ChildInMap(s: RelatedState, path: string, children: seq<Member>, m: string, z: string)
    requires NoSlash(m) && NoSlash(z) && IsAuthSubscriptionUri(path)
    ensures var key := AddSuffix(SUBSCRIBERS + m + AUTH_SUBSCRIPTION, z);
      key in ReadChildren(s, path, children).related <==>
      key in s.related || (path == SUBSCRIBERS + m + AUTH_SUBSCRIPTION && Field(children, z).Some?)
    decreases |children|
  {
    if children != [] {
      var key := AddSuffix(SUBSCRIBERS + m + AUTH_SUBSCRIPTION, z);
      var first := AddSuffix(path, children[0].name);
      if first == key { FlattenedKeySplits(m, z, path, children[0].name); }
      ChildInMap(ReadSubscription(s, first, MembersOf(children[0].value)), path, children[1..], m, z);
    }
  }

  lemma ImsiKeyIsNothingElse(m: string, d: string)
    requires 5 <= |d| <= 15 && AllDigits(d)
    ensures var key := AddSuffix(SUBSCRIBERS + m + AUTH_SUBSCRIPTION, IMSI_PREFIX + d);
      !IsAuthSubscriptionUri(key) && !EndsWith(key, PROV_JOURNAL) && !IsLegacyUri(key)
  {
    var key := AddSuffix(SUBSCRIBERS + m + AUTH_SUBSCRIPTION, IMSI_PREFIX + d);
    assert key[|key| - 1] == d[|d| - 1] && IsDigit(d[|d| - 1]);
    assert key[1] == 's';
    AuthSubscriptionEnds(key);
    LastOfSuffix(key, PROV_JOURNAL);
    CharOfPrefix(key, LEGACY_PARENT, 1);
  }

  lemma ResourceInMap(s: RelatedState, r: Member, m: string, d: string, decode: Decoder)
    requires NoSlash(m) && 5 <= |d| <= 15 && AllDigits(d)
    ensures var key := AddSuffix(SUBSCRIBERS + m + AUTH_SUBSCRIPTION, IMSI_PREFIX + d);
      key in ReadResource(s, r, decode).related <==> key in s.related || Gives(r, m, IMSI_PREFIX + d)
  {
    ImsiKeyIsNothingElse(m, d);
    ImsiSegment(d);
    AuthSubscriptionPattern(SUBSCRIBERS + m + AUTH_SUBSCRIPTION);
    if IsAuthSubscriptionUri(r.name) {
      ChildInMap(s, r.name, MembersOf(r.value), m, IMSI_PREFIX + d);
    }
  }

  lemma {:induction false} ResourcesInMap(s: RelatedState, resources: seq<Member>, m: string, d: string,
                                          decode: Decoder)
    requires NoSlash(m) && 5 <= |d| <= 15 && AllDigits(d)
    ensures var key := AddSuffix(SUBSCRIBERS + m + AUTH_SUBSCRIPTION, IMSI_PREFIX + d);
      key in ReadResources(s, resources, decode).related <==>
      key in s.related || exists r | r in resources :: Gives(r, m, IMSI_PREFIX + d)
    decreases |resources|
  {
    if resources != [] {
      ResourceInMap(s, resources[0], m, d, decode);
      ResourcesInMap(ReadResource(s, resources[0], decode), resources[1..], m, d, decode);
      assert forall r :: r in resources <==> r == resources[0] || r in resources[1..];
    }
  }

  /** For slash-free identifiers: the base-path lookup of a static-data path hits exactly when the
      related resources hold that subscriber, without static data of its own, with that child. */
  lemma FlattenAndLookupAgree(resources: seq<Member>, m: string, d: string, decode: Decoder)
    requires NoSlash(m) && 5 <= |d| <= 15 && AllDigits(d)
    ensures var path := AddSuffix(AddSuffix(SUBSCRIBERS + m + AUTH_SUBSCRIPTION, IMSI_PREFIX + d),
                                  AUTH_SUBSCRIPTION_STATIC_DATA);
      && IsImsiUri(path) && GetImsi(path) == d
      && (BasePath(path) in ReadResources(RelatedState(map[], []), resources, decode).related <==>
            exists r | r in resources :: Gives(r, m, IMSI_PREFIX + d))
  {
    var key := AddSuffix(SUBSCRIBERS + m + AUTH_SUBSCRIPTION, IMSI_PREFIX + d);
    assert NoSlash(AUTH_SUBSCRIPTION_STATIC_DATA);
    GetImsiExact(m, d, AUTH_SUBSCRIPTION_STATIC_DATA);
    SplitAtLastSlash(key, AUTH_SUBSCRIPTION_STATIC_DATA);
    ResourcesInMap(RelatedState(map[], []), resources, m, d, decode);
  }

  // ---------- the order of resource_path and data ----------

  /** The resource path known when member i is read, starting from `path`. */
  function PathAt(path: string, members: seq<Member>, i: nat): string
    requires i <= |members|
    decreases i
  {
    if i == 0 then path
    else PathAt(if members[0].name == RESOURCE_PATH && members[0].value.Str? then members[0].value.s else path,
                members[1..], i - 1)
  }

  /** Whether data read under a path yields static data. */
  predicate TakesData(path: string, data: Json) {
    data.Obj? && if IsAuthSubscriptionUri(path) then HasStaticObject(data.members) else IsStaticDataUri(path)
  }

  predicate DataAt(path: string, members: seq<Member>, i: nat)
    requires i < |members|
  {
    members[i].name == DATA && TakesData(PathAt(path, members, i), members[i].value)
  }

  lemma {:induction false} StaticDataFrom(c: Change, errors: seq<Error>, members: seq<Member>)
    requires ReadMembers(c, errors, members).Reading?
    ensures ReadMembers(c, errors, members).change.authSubscription.staticData.Some? <==>
      c.authSubscription.staticData.Some?
      || exists i | 0 <= i < |members| :: DataAt(c.resourcePath, members, i)
    decreases |members|
  {
    if members != [] {
      var s := ReadMember(c, errors, members[0]);
      StaticDataFrom(s.change, s.errors, members[1..]);
      FirstMemberRead(c, errors, members[0]);
      var path := s.change.resourcePath;
      forall i | 0 < i < |members|
        ensures DataAt(c.resourcePath, members, i) == DataAt(path, members[1..], i - 1)
      {
      }
      if exists i | 0 <= i < |members| :: DataAt(c.resourcePath, members, i) {
        var i :| 0 <= i < |members| && DataAt(c.resourcePath, members, i);
        assert i > 0 ==> DataAt(path, members[1..], i - 1);
        assert i == 0 ==> DataAt(c.resourcePath, members, 0);
      }
      if exists i | 0 <= i < |members[1..]| :: DataAt(path, members[1..], i) {
        var i :| 0 <= i < |members[1..]| && DataAt(path, members[1..], i);
        assert DataAt(c.resourcePath, members, i + 1);
      }
      if TakesDataFirst(c, members[0]) { assert DataAt(c.resourcePath, members, 0); }
    }
  }

  predicate TakesDataFirst(c: Change, m: Member) {
    m.name == DATA && TakesData(c.resourcePath, m.value)
  }

  lemma FirstMemberRead(c: Change, errors: seq<Error>, m: Member)
    requires ReadMember(c, errors, m).Reading?
    ensures var c' := ReadMember(c, errors, m).change;
      && c'.resourcePath == (if m.name == RESOURCE_PATH && m.value.Str? then m.value.s else c.resourcePath)
      && (c'.authSubscription.staticData.Some? <==> c.authSubscription.staticData.Some? || TakesDataFirst(c, m))
  {
  }

  /** A change carries static data exactly when some `data` member comes after a `resource_path` that
      accepts it; in particular not when `data` comes first. */
  lemma StaticDataNeedsPathFirst(errors: seq<Error>, members: seq<Member>)
    requires ReadMembers(NEW_CHANGE, errors, members).Reading?
    ensures ReadMembers(NEW_CHANGE, errors, members).change.authSubscription.staticData.Some? <==>
      TakesSomeData(members)
  {
    StaticDataFrom(NEW_CHANGE, errors, members);
  }

  /** Under a path that ends in the identifier no data is ever taken. */
  lemma {:induction false} NothingTaken(c: Change, errors: seq<Error>, members: seq<Member>, p: string)
    requires ImsiEndsPath(p) && (c.resourcePath == "" || c.resourcePath == p)
    requires forall m | m in members && m.name == RESOURCE_PATH :: m.value == Str(p)
    ensures var s := ReadMembers(c, errors, members);
      s.Reading? ==> s.change.authSubscription == c.authSubscription
    decreases |members|
  {
    if members != [] {
      var s := ReadMember(c, errors, members[0]);
      NothingTakenByOne(c, errors, members[0], p);
      if s.Reading? { NothingTaken(s.change, s.errors, members[1..], p); }
    }
  }

  lemma NothingTakenByOne(c: Change, errors: seq<Error>, m: Member, p: string)
    requires ImsiEndsPath(p) && (c.resourcePath == "" || c.resourcePath == p)
    requires m.name == RESOURCE_PATH ==> m.value == Str(p)
    ensures var s := ReadMember(c, errors, m);
      s.Reading? ==>
        && s.change.authSubscription == c.authSubscription
        && (s.change.resourcePath == "" || s.change.resourcePath == p)
  {
    ImsiPathEnds(p);
    AuthSubscriptionEnds(p);
    LastOfSuffix(p, STATIC_DATA);
  }

  predicate DynamicNeedsStatic(a: AuthSubscription) {
    a.dynamicData.Some? ==> a.staticData.Some?
  }

  lemma {:induction false} NoDynamicDataAlone(c: Change, errors: seq<Error>, members: seq<Member>)
    requires DynamicNeedsStatic(c.authSubscription)
    ensures var s := ReadMembers(c, errors, members);
      s.Reading? ==> DynamicNeedsStatic(s.change.authSubscription)
    decreases |members|
  {
    if members != [] {
      var s := ReadMember(c, errors, members[0]);
      if s.Reading? { NoDynamicDataAlone(s.change, s.errors, members[1..]); }
    }
  }

  /** Some `data` member stands behind a resource path that accepts it. */
  predicate TakesSomeData(members: seq<Member>) {
    exists i | 0 <= i < |members| :: DataAt("", members, i)
  }

  /** Which changes of a document the update rules cannot take, in terms of the document. */
  lemma LacksDataExactly(related: Related, errors: seq<Error>, members: seq<Member>)
    requires ReadMembers(NEW_CHANGE, errors, members).Reading?
    ensures var c := ReadMembers(NEW_CHANGE, errors, members).change;
      LacksData(related, c) <==>
        && Classify(c.resourcePath) == ImsiData && c.operation == UPDATE
        && BasePath(c.resourcePath) in related && !TakesSomeData(members)
  {
    StaticDataNeedsPathFirst(errors, members);
    NoDynamicDataAlone(NEW_CHANGE, errors, members);
  }

  /** An UPDATE on a path that ends in the identifier itself can only carry data read under another
      path given before; with a single path it never does. */
  lemma PrivIdUpdateCarriesNoData(related: Related, errors: seq<Error>, members: seq<Member>, p: string)
    requires ReadMembers(NEW_CHANGE, errors, members).Reading?
    requires ReadMembers(NEW_CHANGE, errors, members).change.operation == UPDATE
    requires ReadMembers(NEW_CHANGE, errors, members).change.resourcePath == p && ImsiEndsPath(p)
    ensures LacksData(related, ReadMembers(NEW_CHANGE, errors, members).change) <==>
      BasePath(p) in related && !TakesSomeData(members)
    ensures (forall m | m in members && m.name == RESOURCE_PATH :: m.value == Str(p)) ==> !TakesSomeData(members)
  {
    ImsiPathEnds(p);
    AuthSubscriptionEnds(p);
    LacksDataExactly(related, errors, members);
    if forall m | m in members && m.name == RESOURCE_PATH :: m.value == Str(p) {
      NothingTaken(NEW_CHANGE, errors, members, p);
      StaticDataNeedsPathFirst(errors, members);
    }
  }

  /** Two paths: data read under the first, the second is the one that stays. */
  lemma TwoPathsCarryData(errors: seq<Error>, p: string, data: seq<Member>, q: string)
    requires p != "" && IsStaticDataUri(p) && q != ""
    ensures var s := ReadMembers(NEW_CHANGE, errors,
        [Member(OPERATION, Str(UPDATE)), Member(RESOURCE_PATH, Str(p)), Member(DATA, Obj(data)),
         Member(RESOURCE_PATH, Str(q))]);
      s.Reading? && s.change.resourcePath == q && s.change.authSubscription.staticData == Some(StaticOf(data))
  {
    var m1, m2, m3, m4 := Member(OPERATION, Str(UPDATE)), Member(RESOURCE_PATH, Str(p)), Member(DATA, Obj(data)),
                          Member(RESOURCE_PATH, Str(q));
    var members := [m1, m2, m3, m4];
    assert members[1..] == [m2, m3, m4] && [m2, m3, m4][1..] == [m3, m4] && [m3, m4][1..] == [m4] && [m4][1..] == [];
    var c1 := NEW_CHANGE.(operation := UPDATE);
    var c2 := c1.(resourcePath := p);
    LastOfSuffix(p, STATIC_DATA);
    AuthSubscriptionEnds(p);
    var s3 := ReadMember(c2, errors, m3);
    assert ReadMember(NEW_CHANGE, errors, m1) == Reading(c1, errors);
    assert ReadMember(c1, errors, m2) == Reading(c2, errors);
    var s4 := ReadMember(s3.change, s3.errors, m4);
    assert ReadMembers(s4.change, s4.errors, []) == s4;
    assert ReadMembers(s3.change, s3.errors, [m4]) == s4;
    assert ReadMembers(c2, errors, [m3, m4]) == s4;
    assert ReadMembers(c1, errors, [m2, m3, m4]) == s4;
  }

  /** With the path first and an object as data, an UPDATE of static data does carry it. */
  lemma StaticDataUpdateCarriesData(related: Related, errors: seq<Error>, p: string, data: seq<Member>)
    requires p != "" && IsStaticDataUri(p)
    ensures var s := ReadMembers(NEW_CHANGE, errors,
        [Member(OPERATION, Str(UPDATE)), Member(RESOURCE_PATH, Str(p)), Member(DATA, Obj(data))]);
      s.Reading? && !LacksData(related, s.change)
  {
    var members := [Member(OPERATION, Str(UPDATE)), Member(RESOURCE_PATH, Str(p)), Member(DATA, Obj(data))];
    var c1 := NEW_CHANGE.(operation := UPDATE);
    var c2 := c1.(resourcePath := p);
    assert members[1..] == [members[1], members[2]] && members[1..][1..] == [members[2]] && [members[2]][1..] == [];
    assert ReadMember(NEW_CHANGE, errors, members[0]) == Reading(c1, errors);
    assert ReadMember(c1, errors, members[1]) == Reading(c2, errors);
    var s3 := ReadMember(c2, errors, members[2]);
    assert s3.Reading?;
    assert ReadMembers(s3.change, s3.errors, []) == s3;
    assert ReadMembers(c2, errors, [members[2]]) == s3;
    assert ReadMembers(c1, errors, members[1..]) == s3;
    LastOfSuffix(p, STATIC_DATA);
    AuthSubscriptionEnds(p);
    assert s3.change.authSubscription.staticData.Some?;
  }
}
