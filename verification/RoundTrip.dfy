/** What the encoder writes, read back; and what the list of changes in a response means. */
module RoundTrip {
  import opened Wrappers
  import opened Numerals
  import opened Paths
  import opened Entities
  import opened Rules
  import opened Members
  import opened Lists
  import opened Parser
  import opened Encoder
  import opened Batch
  import opened Acceptance

  // ---------- reading members back ----------

  const NAMES: seq<string> :=
    [AUTHENTICATION_METHOD, ENC_PERMANENT_KEY, AUTHENTICATION_MANAGEMENT_FIELD, ALGORITHM_ID, A4_KEY_IND, A4_IND,
     ENC_OPC_KEY, A4_KEY_V, AKA_ALGORITHM_IND, ENC_TOPC_KEY]

  lemma NamesDiffer(i: nat, j: nat)
    requires i < j < |NAMES|
    ensures NAMES[i] != NAMES[j]
  {
    assert ENC_PERMANENT_KEY[0] != AKA_ALGORITHM_IND[0];
  }

  lemma NamesAreNotVendor(i: nat)
    requires i < |NAMES|
    ensures !IsVendorSpecific(NAMES[i])
  {
    CharOfPrefix(NAMES[i], VENDOR_SPECIFIC, 0);
  }

  lemma FieldOfText(v: Option<string>, name: string, other: string)
    ensures Field(TextMember(v, name), other)
         == if name == other && v.Some? && v.value != "" then Some(Str(v.value)) else None
  {
    var m := TextMember(v, name);
    if m != [] { assert m[1..] == []; }
  }

  lemma {:induction false} FieldOfTexts(texts: seq<NamedText>, name: string)
    requires forall i, j | 0 <= i < j < |texts| :: texts[i].0 != texts[j].0
    ensures Field(TextMembers(texts), name).Some? ==>
      exists i | 0 <= i < |texts| :: texts[i].0 == name
    ensures forall i | 0 <= i < |texts| && texts[i].0 == name ::
      Field(TextMembers(texts), name)
      == if texts[i].1.Some? && texts[i].1.value != "" then Some(Str(texts[i].1.value)) else None
  {
    if texts != [] {
      var n := |texts| - 1;
      FieldOfTexts(texts[..n], name);
      FieldOfConcat(TextMembers(texts[..n]), MemberOfText(texts[n]), name);
      FieldOfText(texts[n].1, texts[n].0, name);
      if Field(TextMembers(texts[..n]), name).Some? {
        var i :| 0 <= i < n && texts[..n][i].0 == name;
        assert texts[i].0 == name;
      } else if texts[n].0 == name {
        assert texts[n].0 == name;
      }
    }
  }

  lemma {:induction false} TextNames(texts: seq<NamedText>, k: nat)
    requires k < |TextMembers(texts)|
    ensures exists i | 0 <= i < |texts| :: texts[i].0 == TextMembers(texts)[k].name
  {
    if texts != [] {
      var n := |texts| - 1;
      if k < |TextMembers(texts[..n])| {
        TextNames(texts[..n], k);
        var i :| 0 <= i < n && texts[..n][i].0 == TextMembers(texts[..n])[k].name;
        assert texts[i].0 == TextMembers(texts)[k].name;
      } else {
        assert texts[n].0 == TextMembers(texts)[k].name;
      }
    }
  }

  /** No attribute hides among the vendor members. */
  lemma {:induction false} NoAttributeAmongVendor(order: seq<string>, vendor: map<string, Json>, name: string)
    requires !IsVendorSpecific(name) && forall k | k in order :: k in vendor && IsVendorSpecific(k)
    ensures Field(VendorMembers(order, vendor), name) == None
  {
    if order != [] {
      var n := |order| - 1;
      var m := Member(order[n], vendor[order[n]]);
      NoAttributeAmongVendor(order[..n], vendor, name);
      FieldOfConcat(VendorMembers(order[..n], vendor), [m], name);
      FieldOfCons(m, [], name);
      assert [m] + [] == [m] && order[n] in order;
    }
  }

  lemma VendorOfNext(before: seq<Member>, m: Member)
    requires IsVendorSpecific(m.name)
    ensures VendorOf(before + [m])
         == if m.name in VendorOf(before) then VendorOf(before) else VendorOf(before)[m.name := m.value]
  {
    assert (before + [m])[..|before|] == before;
  }

  /** Vendor members are read back as they are. */
  lemma {:induction false} VendorReadBack(order: seq<string>, vendor: map<string, Json>)
    requires forall k | k in order :: k in vendor && IsVendorSpecific(k)
    ensures VendorOf(VendorMembers(order, vendor)) == map k | k in order :: vendor[k]
  {
    if order != [] {
      var n := |order| - 1;
      VendorReadBack(order[..n], vendor);
      VendorOfNext(VendorMembers(order[..n], vendor), Member(order[n], vendor[order[n]]));
      assert forall k :: k in order <==> k in order[..n] || k == order[n];
    }
  }

  /** The attributes add no vendor member. */
  lemma {:induction false} VendorOfBoth(vendorMembers: seq<Member>, others: seq<Member>)
    requires forall i | 0 <= i < |others| :: !IsVendorSpecific(others[i].name)
    ensures VendorOf(vendorMembers + others) == VendorOf(vendorMembers)
    decreases |others|
  {
    if others == [] {
      assert vendorMembers + others == vendorMembers;
    } else {
      var n := |others| - 1;
      VendorOfBoth(vendorMembers, others[..n]);
      assert (vendorMembers + others)[..|vendorMembers| + n] == vendorMembers + others[..n];
    }
  }

  function Nonempty(v: Option<string>): Option<string> {
    if v == Some("") then None else v
  }

  /** What a round trip erases: encTopcKey, and texts that are present but empty. */
  function Erased(d: StaticData): StaticData {
    d.(encPermanentKey := Nonempty(d.encPermanentKey),
       authenticationManagementField := Nonempty(d.authenticationManagementField),
       algorithmId := Nonempty(d.algorithmId),
       a4KeyInd := Nonempty(d.a4KeyInd),
       a4Ind := Nonempty(d.a4Ind),
       encOpcKey := Nonempty(d.encOpcKey),
       encTopcKey := None,
       a4KeyV := Nonempty(d.a4KeyV),
       akaAlgorithmInd := Nonempty(d.akaAlgorithmInd))
  }

  predicate OnlyVendorKeys(d: StaticData) {
    forall k | k in d.vendorSpecific :: IsVendorSpecific(k)
  }

  lemma WrittenNames(d: StaticData)
    ensures |WrittenTexts(d)| == 9 && forall i | 0 <= i < 9 :: WrittenTexts(d)[i].0 == NAMES[i]
    ensures forall i, j | 0 <= i < j < 9 :: WrittenTexts(d)[i].0 != WrittenTexts(d)[j].0
  {
    forall i, j | 0 <= i < j < 9 ensures NAMES[i] != NAMES[j] { NamesDiffer(i, j); }
  }

  /** The i-th written attribute is read back under its name. */
  lemma TextOfWritten(d: StaticData, i: nat, path: string)
    requires OnlyVendorKeys(d) && i < 9
    ensures |WrittenTexts(d)| == 9
    ensures Text(StaticMembers(d), NAMES[i]) == Nonempty(WrittenTexts(d)[i].1)
    ensures TextErrors(StaticMembers(d), NAMES[i], path) == []
  {
    var order := InOrder(d.vendorSpecific.Keys);
    WrittenNames(d);
    NamesAreNotVendor(i);
    NoAttributeAmongVendor(order, d.vendorSpecific, NAMES[i]);
    FieldOfTexts(WrittenTexts(d), NAMES[i]);
    assert WrittenTexts(d)[i].0 == NAMES[i];
    FieldOfConcat(VendorMembers(order, d.vendorSpecific), TextMembers(WrittenTexts(d)), NAMES[i]);
  }

  lemma TopcKeyIsNotWritten(d: StaticData, path: string)
    requires OnlyVendorKeys(d)
    ensures Text(StaticMembers(d), ENC_TOPC_KEY) == None && TextErrors(StaticMembers(d), ENC_TOPC_KEY, path) == []
  {
    var order := InOrder(d.vendorSpecific.Keys);
    WrittenNames(d);
    NamesAreNotVendor(9);
    forall i | 0 <= i < 9 ensures NAMES[i] != NAMES[9] { NamesDiffer(i, 9); }
    NoAttributeAmongVendor(order, d.vendorSpecific, ENC_TOPC_KEY);
    FieldOfTexts(WrittenTexts(d), ENC_TOPC_KEY);
    FieldOfConcat(VendorMembers(order, d.vendorSpecific), TextMembers(WrittenTexts(d)), ENC_TOPC_KEY);
  }

  lemma VendorOfStatic(d: StaticData)
    requires OnlyVendorKeys(d)
    ensures VendorOf(StaticMembers(d)) == d.vendorSpecific
  {
    var order, others := InOrder(d.vendorSpecific.Keys), TextMembers(WrittenTexts(d));
    VendorReadBack(order, d.vendorSpecific);
    forall k | 0 <= k < |others| ensures !IsVendorSpecific(others[k].name) {
      TextNames(WrittenTexts(d), k);
      var i :| 0 <= i < |WrittenTexts(d)| && WrittenTexts(d)[i].0 == others[k].name;
      WrittenNames(d);
      NamesAreNotVendor(i);
    }
    VendorOfBoth(VendorMembers(order, d.vendorSpecific), others);
  }

  /** Everything the parser reads from what was written. */
  predicate ReadsBack(members: seq<Member>, d: StaticData) {
    && Text(members, AUTHENTICATION_METHOD) == Nonempty(Some(d.authenticationMethod))
    && Text(members, ENC_PERMANENT_KEY) == Nonempty(d.encPermanentKey)
    && Text(members, AUTHENTICATION_MANAGEMENT_FIELD) == Nonempty(d.authenticationManagementField)
    && Text(members, ALGORITHM_ID) == Nonempty(d.algorithmId)
    && Text(members, A4_KEY_IND) == Nonempty(d.a4KeyInd)
    && Text(members, A4_IND) == Nonempty(d.a4Ind)
    && Text(members, ENC_OPC_KEY) == Nonempty(d.encOpcKey)
    && Text(members, A4_KEY_V) == Nonempty(d.a4KeyV)
    && Text(members, AKA_ALGORITHM_IND) == Nonempty(d.akaAlgorithmInd)
    && Text(members, ENC_TOPC_KEY) == None
  }

  lemma StaticReadsBack(d: StaticData, path: string)
    requires OnlyVendorKeys(d)
    ensures ReadsBack(StaticMembers(d), d)
    ensures StaticParseErrors(StaticMembers(d), path) == MethodParseErrors(StaticMembers(d), path)
  {
    TextOfWritten(d, 0, path);
    TextOfWritten(d, 1, path);
    TextOfWritten(d, 2, path);
    TextOfWritten(d, 3, path);
    TextOfWritten(d, 4, path);
    TextOfWritten(d, 5, path);
    TextOfWritten(d, 6, path);
    TextOfWritten(d, 7, path);
    TextOfWritten(d, 8, path);
    TopcKeyIsNotWritten(d, path);
  }

  /** Static data with a method and proper vendor keys survives being written and read, without an
      error, up to exactly what Erased names. */
  lemma StaticDataRoundTrip(d: StaticData, path: string)
    requires d.authenticationMethod != "" && OnlyVendorKeys(d)
    ensures StaticOf(StaticMembers(d)) == Erased(d)
    ensures StaticParseErrors(StaticMembers(d), path) == []
  {
    VendorOfStatic(d);
    StaticReadsBack(d, path);
  }

  /** Without a method the text read back is refused: the condition is needed. */
  lemma EmptyMethodIsRefused(d: StaticData, path: string)
    requires d.authenticationMethod == "" && OnlyVendorKeys(d)
    ensures StaticParseErrors(StaticMembers(d), path) == [Violation(path, AUTHENTICATION_METHOD)]
  {
    StaticReadsBack(d, path);
  }

  // ---------- dynamic data ----------

  lemma IndexesNext(before: seq<Member>, m: Member)
    requires m.value.Int?
    ensures IndexesOf(before + [m])
         == if m.name in IndexesOf(before) then IndexesOf(before) else IndexesOf(before)[m.name := m.value.n]
  {
    assert (before + [m])[..|before|] == before;
  }

  function Restricted(order: seq<string>, list: map<string, Int32>): map<string, Int32>
    requires forall k | k in order :: k in list
  {
    map k | k in order :: list[k]
  }

  lemma RestrictedNext(order: seq<string>, list: map<string, Int32>, n: nat)
    requires |order| == n + 1 && forall k | k in order :: k in list
    ensures forall k | k in order[..n] :: k in list
    ensures var before := Restricted(order[..n], list);
      Restricted(order, list) == if order[n] in before then before else before[order[n] := list[order[n]]]
  {
    assert order == order[..n] + [order[n]];
  }

  /** The indexes are read back as they are. */
  lemma {:induction false} IndexesReadBack(order: seq<string>, list: map<string, Int32>)
    requires forall k | k in order :: k in list
    ensures IndexesOf(IndexMembers(order, list)) == Restricted(order, list)
  {
    if order != [] {
      var n := |order| - 1;
      IndexesReadBack(order[..n], list);
      RestrictedNext(order, list, n);
      IndexesNext(IndexMembers(order[..n], list), Member(order[n], Int(list[order[n]])));
    }
  }

  lemma {:induction false} IndexesWithoutError(members: seq<Member>, path: string)
    requires forall i | 0 <= i < |members| :: members[i].value.Int?
    ensures IndexErrors(members, path) == []
  {
    if members != [] { IndexesWithoutError(members[..|members| - 1], path); }
  }

  lemma {:induction false} IndexesAreInts(order: seq<string>, list: map<string, Int32>)
    requires forall k | k in order :: k in list
    ensures forall i | 0 <= i < |IndexMembers(order, list)| :: IndexMembers(order, list)[i].value.Int?
  {
    if order != [] { IndexesAreInts(order[..|order| - 1], list); }
  }

  /** What a round trip makes of dynamic data: texts that are present but empty are erased, and an absent
      list of indexes becomes an empty one. */
  function ErasedDynamic(d: DynamicData): DynamicData {
    DynamicData(Nonempty(d.sqnScheme), Nonempty(d.sqn),
                Some(if d.lastIndexesList.Some? then d.lastIndexesList.value else map[]))
  }

  lemma DynamicNamesDiffer()
    ensures SQN_SCHEME != SQN && SQN_SCHEME != LAST_INDEXES_LIST && SQN != LAST_INDEXES_LIST
  {
  }

  lemma DynamicField(d: DynamicData, name: string)
    ensures Field(DynamicMembers(d), name)
         == if name == SQN_SCHEME && Nonempty(d.sqnScheme).Some? then Some(Str(d.sqnScheme.value))
            else if name == SQN && Nonempty(d.sqn).Some? then Some(Str(d.sqn.value))
            else if name == LAST_INDEXES_LIST then Some(LastIndexesJson(d.lastIndexesList)) else None
  {
    var list := Member(LAST_INDEXES_LIST, LastIndexesJson(d.lastIndexesList));
    DynamicNamesDiffer();
    FieldOfText(d.sqnScheme, SQN_SCHEME, name);
    FieldOfText(d.sqn, SQN, name);
    FieldOfThreeParts(TextMember(d.sqnScheme, SQN_SCHEME), TextMember(d.sqn, SQN), list, name);
  }

  lemma FieldOfThreeParts(a: seq<Member>, b: seq<Member>, m: Member, name: string)
    ensures Field(a + b + [m], name)
         == if Field(a, name).Some? then Field(a, name)
            else if Field(b, name).Some? then Field(b, name)
            else if m.name == name then Some(m.value) else None
  {
    FieldOfConcat(a + b, [m], name);
    FieldOfConcat(a, b, name);
    FieldOfCons(m, [], name);
    assert [m] + [] == [m];
  }

  lemma DynamicTexts(d: DynamicData, path: string)
    ensures Text(DynamicMembers(d), SQN_SCHEME) == Nonempty(d.sqnScheme)
    ensures Text(DynamicMembers(d), SQN) == Nonempty(d.sqn)
    ensures TextErrors(DynamicMembers(d), SQN_SCHEME, path) == []
    ensures TextErrors(DynamicMembers(d), SQN, path) == []
    ensures Field(DynamicMembers(d), LAST_INDEXES_LIST) == Some(LastIndexesJson(d.lastIndexesList))
  {
    DynamicNamesDiffer();
    DynamicField(d, SQN_SCHEME);
    DynamicField(d, SQN);
    DynamicField(d, LAST_INDEXES_LIST);
  }

  lemma IndexesJsonReadBack(list: Option<map<string, Int32>>, path: string)
    ensures var members := MembersOf(LastIndexesJson(list));
      && IndexesOf(members) == (if list.Some? then list.value else map[])
      && IndexErrors(members, path) == []
  {
    if list.Some? {
      var order := InOrder(list.value.Keys);
      IndexesReadBack(order, list.value);
      IndexesAreInts(order, list.value);
      IndexesWithoutError(IndexMembers(order, list.value), path);
      assert Restricted(order, list.value) == list.value;
    }
  }

  /** Dynamic data of any kind survives being written and read, without an error, up to exactly what
      ErasedDynamic names. */
  lemma DynamicDataRoundTrip(d: DynamicData, path: string)
    ensures DynamicOf(DynamicMembers(d)) == ErasedDynamic(d)
    ensures DynamicParseErrors(DynamicMembers(d), path) == []
  {
    DynamicTexts(d, path);
    IndexesJsonReadBack(d.lastIndexesList, path);
  }

  // ---------- a whole change ----------

  lemma StaticPathMentionsSubscription(path: string)
    requires IsStaticDataUri(path)
    ensures MentionsSubscription(path)
  {
    var k :| 13 <= k <= |path| - 45 && OccursAt(path, AUTH_SUBSCRIPTION_CHILD, k);
    InnerOccurrence(path, AUTH_SUBSCRIPTION_CHILD, AUTH_SUBSCRIPTION_NAME, k);
  }

  lemma InnerOccurrence(s: string, t: string, u: string, k: nat)
    requires OccursAt(s, t, k) && |u| + 1 <= |t| && forall i | 0 <= i < |u| :: u[i] == t[i + 1]
    ensures OccursAt(s, u, k + 1)
  {
    var w := s[k..k + |t|];
    var v := s[k + 1..k + 1 + |u|];
    assert forall i | 0 <= i < |u| :: v[i] == w[i + 1];
  }

  /** An emitted static-data change, read as a request again, is the accepted change without its
      dynamic data and up to what a round trip erases. */
  lemma ChangeRoundTrip(c: Change, errors: seq<Error>)
    requires IsStaticDataUri(c.resourcePath) && IsJudged(c.operation)
    requires c.authSubscription.staticData.Some?
    requires c.authSubscription.staticData.value.authenticationMethod != ""
    requires OnlyVendorKeys(c.authSubscription.staticData.value)
    ensures ReadMembers(NEW_CHANGE, errors, MembersOf(ChangeJson(c)))
         == Reading(Change(c.operation, c.resourcePath,
                           AuthSubscription(Some(Erased(c.authSubscription.staticData.value)), None)), errors)
  {
    var d := c.authSubscription.staticData.value;
    StaticPathMentionsSubscription(c.resourcePath);
    StaticDataRoundTrip(d, c.resourcePath);
    LastOfSuffix(c.resourcePath, STATIC_DATA);
    AuthSubscriptionEnds(c.resourcePath);
    ThreeMembersRead(c.operation, c.resourcePath, StaticMembers(d), errors);
    MembersOfChange(c);
  }

  lemma MembersOfChange(c: Change)
    requires c.operation != DELETE && MentionsSubscription(c.resourcePath) && c.authSubscription.staticData.Some?
    ensures MembersOf(ChangeJson(c)) ==
      [Member(OPERATION, Str(c.operation)), Member(RESOURCE_PATH, Str(c.resourcePath)),
       Member(DATA, Obj(StaticMembers(c.authSubscription.staticData.value)))]
  {
  }

  lemma ThreeMembersRead(operation: string, path: string, data: seq<Member>, errors: seq<Error>)
    requires IsOperation(operation) && IsStaticDataUri(path) && !IsAuthSubscriptionUri(path) && path != ""
    ensures ReadMembers(NEW_CHANGE, errors,
              [Member(OPERATION, Str(operation)), Member(RESOURCE_PATH, Str(path)), Member(DATA, Obj(data))])
         == Reading(Change(operation, path, AuthSubscription(Some(StaticOf(data)), None)),
                    errors + StaticParseErrors(data, path))
  {
    var m1, m2, m3 := Member(OPERATION, Str(operation)), Member(RESOURCE_PATH, Str(path)), Member(DATA, Obj(data));
    var c1 := NEW_CHANGE.(operation := operation);
    var c2 := c1.(resourcePath := path);
    var s3 := ReadMember(c2, errors, m3);
    assert s3 == Reading(Change(operation, path, AuthSubscription(Some(StaticOf(data)), None)),
                         errors + StaticParseErrors(data, path));
    OneMember(c2, errors, m3, []);
    OneMember(c1, errors, m2, [m3]);
    OneMember(NEW_CHANGE, errors, m1, [m2, m3]);
    assert [m3] + [] == [m3] && [m2] + [m3] == [m2, m3] && [m1] + [m2, m3] == [m1, m2, m3];
  }

  lemma OneMember(c: Change, errors: seq<Error>, m: Member, rest: seq<Member>)
    requires ReadMember(c, errors, m).Reading?
    ensures var s := ReadMember(c, errors, m);
      ReadMembers(c, errors, [m] + rest) == ReadMembers(s.change, s.errors, rest)
  {
    assert ([m] + rest)[0] == m && ([m] + rest)[1..] == rest;
  }

  // ---------- the emitted list ----------

  /** The number of CREATEs among the first n changes. */
  function Creates(changes: seq<Change>, n: nat): nat
    requires n <= |changes|
  {
    if n == 0 then 0 else Creates(changes, n - 1) + if changes[n - 1].operation == CREATE then 1 else 0
  }

  lemma {:induction false} ExpansionLength(changes: seq<Change>, n: nat)
    requires n <= |changes|
    ensures |Expand(changes[..n])| == n + Creates(changes, n)
  {
    if n > 0 {
      ExpansionLength(changes, n - 1);
      FlatMapNext(ExpandOne, changes, n - 1);
      PieceLength(changes[n - 1]);
    }
  }

  lemma WholeExpansion(changes: seq<Change>)
    ensures |Expand(changes)| == |changes| + Creates(changes, |changes|)
  {
    ExpansionLength(changes, |changes|);
    assert changes[..|changes|] == changes;
  }

  lemma PieceLength(c: Change)
    ensures |ExpandOne(c)| == if c.operation == CREATE then 2 else 1
    ensures ExpandOne(c)[0] == ChangeJson(c)
    ensures c.operation == CREATE ==> ExpandOne(c)[1] == SiblingJson(c)
  {
  }

  /** A piece of a list, from position p on. */
  predicate PlacedAt(list: seq<Json>, piece: seq<Json>, p: nat) {
    p + |piece| <= |list| && list[p..p + |piece|] == piece
  }

  lemma ExpansionPlace(changes: seq<Change>, i: nat, p: nat)
    requires i < |changes| && p == |Expand(changes[..i])|
    ensures PlacedAt(Expand(changes), ExpandOne(changes[i]), p)
  {
    FlatMapPlace(ExpandOne, changes, i);
  }

  /** One element for each change and one more for each CREATE; what change i adds stands, in one
      piece, behind what the changes before it add: a CREATE is followed at once by its sibling. */
  lemma ExpansionPositions(changes: seq<Change>, i: nat)
    requires i < |changes|
    ensures |Expand(changes)| == |changes| + Creates(changes, |changes|)
    ensures PlacedAt(Expand(changes), ExpandOne(changes[i]), i + Creates(changes, i))
  {
    WholeExpansion(changes);
    ExpansionLength(changes, i);
    ExpansionPlace(changes, i, i + Creates(changes, i));
  }

  function OperationOf(j: Json): string {
    var v := Field(MembersOf(j), OPERATION);
    if v.Some? && v.value.Str? then v.value.s else ""
  }

  function PathOf(j: Json): string {
    var v := Field(MembersOf(j), RESOURCE_PATH);
    if v.Some? && v.value.Str? then v.value.s else ""
  }

  lemma FirstTwoMembers(operation: string, path: string, rest: seq<Member>)
    ensures var j := Obj([Member(OPERATION, Str(operation)), Member(RESOURCE_PATH, Str(path))] + rest);
      OperationOf(j) == operation && PathOf(j) == path
      && Field(MembersOf(j), DATA) == Field(rest, DATA)
  {
    var m1, m2 := Member(OPERATION, Str(operation)), Member(RESOURCE_PATH, Str(path));
    assert [m1, m2] + rest == [m1] + ([m2] + rest);
    assert OPERATION[0] != RESOURCE_PATH[0] && DATA[0] != OPERATION[0] && DATA[0] != RESOURCE_PATH[0];
    FieldOfCons(m1, [m2] + rest, OPERATION);
    FieldOfCons(m1, [m2] + rest, RESOURCE_PATH);
    FieldOfCons(m1, [m2] + rest, DATA);
    FieldOfCons(m2, rest, RESOURCE_PATH);
    FieldOfCons(m2, rest, DATA);
  }

  /** An emitted change keeps operation and path and carries data iff it is no DELETE; its sibling has
      the same operation, the same base path, and ends in the dynamic-data segment. */
  lemma EmittedChange(c: Change)
    ensures OperationOf(ChangeJson(c)) == c.operation && PathOf(ChangeJson(c)) == c.resourcePath
    ensures Field(MembersOf(ChangeJson(c)), DATA).Some? <==> c.operation != DELETE
    ensures OperationOf(SiblingJson(c)) == c.operation
    ensures BasePath(PathOf(SiblingJson(c))) == BasePath(c.resourcePath)
    ensures EndsWith(PathOf(SiblingJson(c)), DYNAMIC_DATA)
  {
    EmittedData(c);
    EmittedSibling(c);
    SiblingPathEnds(c.resourcePath);
  }

  lemma EmittedData(c: Change)
    ensures OperationOf(ChangeJson(c)) == c.operation && PathOf(ChangeJson(c)) == c.resourcePath
    ensures Field(MembersOf(ChangeJson(c)), DATA).Some? <==> c.operation != DELETE
  {
    var data := [Member(DATA, StaticPart(c))];
    FirstTwoMembers(c.operation, c.resourcePath, if c.operation != DELETE then data else []);
    assert data[0].name == DATA;
  }

  lemma EmittedSibling(c: Change)
    ensures OperationOf(SiblingJson(c)) == c.operation
    ensures PathOf(SiblingJson(c)) == SiblingPath(c.resourcePath, DYNAMIC_DATA)
  {
    var sibling := SiblingPath(c.resourcePath, DYNAMIC_DATA);
    assert MembersOf(SiblingJson(c)) ==
      [Member(OPERATION, Str(c.operation)), Member(RESOURCE_PATH, Str(sibling))] + [Member(DATA, DynamicPart(c))];
    FirstTwoMembers(c.operation, sibling, [Member(DATA, DynamicPart(c))]);
  }

  lemma SiblingPathEnds(path: string)
    ensures BasePath(SiblingPath(path, DYNAMIC_DATA)) == BasePath(path)
    ensures EndsWith(SiblingPath(path, DYNAMIC_DATA), DYNAMIC_DATA)
  {
    var sibling := SiblingPath(path, DYNAMIC_DATA);
    assert NoSlash(DYNAMIC_DATA);
    SplitAtLastSlash(BasePath(path), DYNAMIC_DATA);
    assert sibling[|sibling| - |DYNAMIC_DATA|..] == DYNAMIC_DATA;
  }

  /** Operation and path of an element that is no dynamic-data sibling. */
  function HeadOf(j: Json): seq<(string, string)> {
    if EndsWith(PathOf(j), DYNAMIC_DATA) then [] else [(OperationOf(j), PathOf(j))]
  }

  ghost function Heads(list: seq<Json>): seq<(string, string)> {
    FlatMap(HeadOf, list)
  }

  function OperationsAndPaths(changes: seq<Change>): seq<(string, string)> {
    seq(|changes|, i requires 0 <= i < |changes| => (changes[i].operation, changes[i].resourcePath))
  }

  function OperationAndPath(c: Change): seq<(string, string)> {
    [(c.operation, c.resourcePath)]
  }

  lemma HeadsOfPiece(c: Change)
    requires !EndsWith(c.resourcePath, DYNAMIC_DATA)
    ensures Heads(ExpandOne(c)) == OperationAndPath(c)
  {
    EmittedChange(c);
    FlatMapOne(HeadOf, ChangeJson(c));
    if c.operation == CREATE {
      FlatMapOne(HeadOf, SiblingJson(c));
      FlatMapConcat(HeadOf, [ChangeJson(c)], [SiblingJson(c)]);
      assert ExpandOne(c) == [ChangeJson(c)] + [SiblingJson(c)];
    }
  }

  /** Taking the dynamic-data siblings out of the emitted list gives back operations and paths. */
  lemma HeadsOfExpansion(changes: seq<Change>)
    requires forall i | 0 <= i < |changes| :: !EndsWith(changes[i].resourcePath, DYNAMIC_DATA)
    ensures Heads(Expand(changes)) == OperationsAndPaths(changes)
  {
    forall i | 0 <= i < |changes| ensures FlatMap(HeadOf, ExpandOne(changes[i])) == OperationAndPath(changes[i]) {
      HeadsOfPiece(changes[i]);
    }
    FlatMapTwice(ExpandOne, HeadOf, OperationAndPath, changes);
    FlatMapSingles(OperationAndPath, changes, OperationsAndPaths(changes));
  }

  /** The whole service on an error-free batch: the response lists exactly the changes that had to be
      accepted, in order, once its dynamic-data siblings are taken out. */
  lemma ResponseOfErrorFreeBatch(related: Related, batch: seq<Change>)
    requires NeverThrows(related, START, batch) && SeqHesReadable(related)
    requires Run(related, START, batch).errors == []
    ensures var accepted := Run(related, START, batch).accepted;
      && accepted == Expected(related, batch)
      && Heads(Expand(accepted)) == OperationsAndPaths(accepted)
      && |Expand(accepted)| == |accepted| + Creates(accepted, |accepted|)
  {
    var accepted := Run(related, START, batch).accepted;
    ErrorFreeBatchIsComplete(related, batch);
    forall i | 0 <= i < |accepted| ensures !EndsWith(accepted[i].resourcePath, DYNAMIC_DATA) {
      AcceptedPathsAreNotDynamic(related, batch, accepted[i]);
    }
    HeadsOfExpansion(accepted);
    WholeExpansion(accepted);
  }
}
